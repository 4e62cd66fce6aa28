/**
 How a check leaves its account, how far a run gets in its list, and what must have come before a
 destructive request.
 */
module Outcomes {
  import opened Wrappers
  import opened Accounts
  import opened Redis
  import opened System
  import opened AccountInvariants
  import opened SystemInvariants
  import opened Frames
  import opened SystemSteps
  import opened Presses
  import opened Safety
  import opened RetryQueue
  import W = Worker
  import Server

  // ---------------------------------------------------------------------------------------------
  // Checks

  /** The record a check that began one leaves behind when it ends. */
  predicate LeftBehind(r: Redis.State, now: nat, id: AccountId, ok: bool) {
    && GetJob(r, now, id).Some?
    && var job := GetJob(r, now, id).value;
    && if ok then job.status.IsCompleted() && id !in Queued(r)
       else job.status.Failed? && id in r.failed && id !in r.pending && r.jobs[id].expiry.None?
  }

  lemma LastCommandLeavesRecord(r: Redis.State, now: nat, h: History, kind: W.RunKind, process: nat, account: Account, phase: W.Phase)
    requires CheckInv(r, now, h, kind, account, phase) && (phase.Completing? || phase.FailWrite?)
    requires W.Step(r, now, kind, process, account, phase, W.Command(W.Answered)).Some?
    ensures var (r', after) := W.Step(r, now, kind, process, account, phase, W.Command(W.Answered)).value;
            after.Done? && LeftBehind(r', now, account.id, after.ok)
  {
  }

  /** A check under way ends only with such a last command, or with a command that got no answer. */
  lemma OnlyTheLastCommandEnds(r: Redis.State, now: nat, kind: W.RunKind, process: nat, account: Account, phase: W.Phase, input: W.Input)
    requires W.Step(r, now, kind, process, account, phase, input).Some? && Owns(phase)
    requires W.Step(r, now, kind, process, account, phase, input).value.1.Done?
    ensures input.Command?
    ensures phase.Completing? || phase.FailWrite? || !input.reply.Answered?
  {
  }

  /**
   Over every history, when a check that began a record ends with its commands answered, its account
   is completed and in neither queue, or Failed, without expiry, and queued for `retry-failed`. A
   failure goes unrecorded only when Redis did not answer.
   */
  lemma {:induction false} EndedCheckIsRecorded(events: seq<Event>, id: AccountId, input: W.Input)
    requires After(events).Some? && Step(After(events).value, Check(id, input)).Some?
    requires PhaseOf(After(events).value, id).Some? && Owns(PhaseOf(After(events).value, id).value)
    ensures var s' := Step(After(events).value, Check(id, input)).value;
            var after := PhaseOf(s', id);
            && after.Some?
            && (after.value.Done? ==> input.Command? && (input.reply.Answered? ==> LeftBehind(s'.redis, s'.now, id, after.value.ok)))
  {
    HistoryKeepsInv(events);
    var s := After(events).value;
    var run, stage := s.run.value, s.run.value.stage;
    var account, phase := FindAccount(stage.accounts, id).value, stage.workers[id];
    StepIsCheckStepped(s, id, input);
    var after := W.Step(s.redis, s.now, run.kind, run.process, account, phase, input).value.1;
    if after.Done? {
      OnlyTheLastCommandEnds(s.redis, s.now, run.kind, run.process, account, phase, input);
      if input.reply.Answered? {
        LastCommandLeavesRecord(s.redis, s.now, s.history, run.kind, run.process, account, phase);
      }
    }
  }

  // ---------------------------------------------------------------------------------------------
  // Clicks

  /** Event `n` of the click's own handling, which has been going on since. */
  ghost predicate HappenedInClick(events: seq<Event>, n: nat, task: nat, input: Server.TaskInput) {
    && n < |events| && events[n] == Handle(task, input)
    && forall m :: n < m < |events| ==> events[m] != DropGuard(task) && events[m] != CrashServer
  }

  ghost predicate HadInput(events: seq<Event>, task: nat, input: Server.TaskInput) {
    exists n :: HappenedInClick(events, n, task, input)
  }

  /** What a click's phase says about how it got there. */
  ghost predicate CameThere(events: seq<Event>, task: nat, t: Server.Task) {
    && (t.phase.CheckFeedback? || t.phase.CheckSuspended? || t.phase.Issuing? || t.phase.Calling? ==> t.button.Suspend? || t.button.Delete?)
    && (t.phase.CheckSuspended? || t.phase.Issuing? || t.phase.Calling? ==> HadInput(events, task, Server.FeedbackRead(true)))
    && (t.phase.Issuing? || t.phase.Calling? ==>
          if t.button.Delete? then HadInput(events, task, Server.SuspensionRead(Some(true)))
          else HadInput(events, task, Server.SuspensionRead(Some(false))) || HadInput(events, task, Server.SuspensionRead(None)))
  }

  lemma InputStays(events: seq<Event>, event: Event, task: nat, input: Server.TaskInput)
    requires HadInput(events, task, input) && event != DropGuard(task) && event != CrashServer
    ensures HadInput(events + [event], task, input)
  {
    var n :| HappenedInClick(events, n, task, input);
    assert HappenedInClick(events + [event], n, task, input);
  }

  lemma InputJustNow(events: seq<Event>, task: nat, input: Server.TaskInput)
    ensures HadInput(events + [Handle(task, input)], task, input)
  {
    assert HappenedInClick(events + [Handle(task, input)], |events|, task, input);
  }

  lemma CameThereStays(events: seq<Event>, event: Event, task: nat, t: Server.Task)
    requires CameThere(events, task, t) && event != DropGuard(task) && event != CrashServer
    ensures CameThere(events + [event], task, t)
  {
    forall input | HadInput(events, task, input) ensures HadInput(events + [event], task, input) {
      InputStays(events, event, task, input);
    }
  }

  /** One step of the click itself. */
  lemma ClickStepCameThere(events: seq<Event>, s: System.State, task: nat, input: Server.TaskInput)
    requires task in s.tasks && CameThere(events, task, s.tasks[task])
    requires Server.TaskStep(s.redis, s.now, s.tasks[task], input).Some?
    ensures var phase := Server.TaskStep(s.redis, s.now, s.tasks[task], input).value.1;
            CameThere(events + [Handle(task, input)], task, s.tasks[task].(phase := phase))
  {
    CameThereStays(events, Handle(task, input), task, s.tasks[task]);
    InputJustNow(events, task, input);
    if input.SuspensionRead? {
      if input.suspended.Some? {
        var answer: bool := input.suspended.value;
        assert input == Server.SuspensionRead(Some(if answer then true else false));
      }
    }
  }

  lemma OtherEventsKeepTask(s: System.State, event: Event, task: nat)
    requires Step(s, event).Some? && task in Step(s, event).value.tasks
    requires !(event.Handle? && event.task == task)
    ensures var t := Step(s, event).value.tasks[task];
            || (task in s.tasks && t == s.tasks[task] && event != DropGuard(task) && event != CrashServer)
            || t.phase == Server.FirstPhase(t.button)
  {
    if !event.Click? && !event.Handle? && !event.DropGuard? && !event.CrashServer? {
      OnlyServerEventsTouchTasks(s, event);
    }
  }

  lemma {:induction false} EveryClickCameThere(events: seq<Event>, task: nat)
    requires After(events).Some? && task in After(events).value.tasks
    ensures CameThere(events, task, After(events).value.tasks[task])
    decreases |events|
  {
    if events != [] {
      var before, event := events[..|events| - 1], events[|events| - 1];
      LastStep(events);
      var s := After(before).value;
      assert before + [event] == events;
      if event.Handle? && event.task == task {
        EveryClickCameThere(before, task);
        ClickStepCameThere(before, s, task, event.action);
      } else {
        OtherEventsKeepTask(s, event, task);
        if task in s.tasks && After(events).value.tasks[task] == s.tasks[task] && event != DropGuard(task) && event != CrashServer {
          EveryClickCameThere(before, task);
          CameThereStays(before, event, task, s.tasks[task]);
        }
      }
    }
  }

  /**
   Only the suspend and delete buttons lead to a destructive request, and within the same click an
   answered feedback check came before it, and a suspension check: for a delete it said suspended, for a
   suspend it did not.
   */
  lemma {:induction false} DestructiveCallWasChecked(events: seq<Event>, task: nat)
    requires After(events).Some? && task in After(events).value.tasks
    requires After(events).value.tasks[task].phase.Issuing? || After(events).value.tasks[task].phase.Calling?
    ensures var button := After(events).value.tasks[task].button;
            && (button.Suspend? || button.Delete?)
            && HadInput(events, task, Server.FeedbackRead(true))
            && (if button.Delete? then HadInput(events, task, Server.SuspensionRead(Some(true)))
                else HadInput(events, task, Server.SuspensionRead(Some(false))) || HadInput(events, task, Server.SuspensionRead(None)))
  {
    EveryClickCameThere(events, task);
  }

  // ---------------------------------------------------------------------------------------------
  // Successful retries leave the queue

  predicate IsEarly(phase: W.Phase) {
    phase.Start? || phase.ReadFeedback? || phase.ReadRecord?
  }

  /** Accounts from place `from` on. */
  predicate InRest(accounts: seq<Account>, from: int, id: AccountId) {
    exists i :: 0 <= i < |accounts| && from <= i && accounts[i].id == id
  }

  /** The stage still has the account before it: listed to be checked, or not past reading its record. */
  predicate AwaitedAt(stage: Stage, id: AccountId) {
    match stage
    case Walking(_, live) => id in live
    case Looking(looked, resolved, _, live) => id in live || (!resolved && id == looked)
    case Removing(_, _, live) => id in live
    case Fetching(todo, fetched) => id in todo || InRest(fetched, 0, id)
    case MarkReading(_, todo, fetched) => id in todo || InRest(fetched, 0, id)
    case MarkWriting(_, _, todo, fetched) => id in todo || InRest(fetched, 0, id)
    case Checking(_, accounts, _, end, workers) => InRest(accounts, end, id) || (id in workers && IsEarly(workers[id]))
    case other => false
  }

  predicate Awaited(s: System.State, id: AccountId) {
    s.run.Some? && s.run.value.kind.RetryFailed? && AwaitedAt(s.run.value.stage, id)
  }

  /** A decided account is in no queue. */
  predicate Clean(r: Redis.State, id: AccountId) {
    id in r.feedback ==> id !in Queued(r)
  }

  ghost predicate AwaitedAreClean(s: System.State) {
    forall id :: Awaited(s, id) ==> Clean(s.redis, id)
  }

  // ---------------------------------------------------------------------------------------------
  // Who is awaited

  lemma RetryEventAwaitsNoMore(s: System.State, run: Run, event: Event, id: AccountId)
    requires IsRetryEvent(event) && s.run == Some(run) && StepRetry(s, run, event).Some?
    requires Awaited(StepRetry(s, run, event).value, id) && event != WalkFeedback(id)
    ensures Awaited(s, id)
  {
    if event.FetchQueued? && run.stage.todo[0] != id {
      var fetched := run.stage.fetched;
      if InRest(if event.found.Some? then fetched + [event.found.value] else fetched, 0, id) && id !in run.stage.todo {
        AppendedRest(fetched, event.found, id);
      }
    }
  }

  lemma AppendedRest(fetched: seq<Account>, found: Option<Account>, id: AccountId)
    requires InRest(if found.Some? then fetched + [found.value] else fetched, 0, id) && (found.Some? ==> found.value.id != id)
    ensures InRest(fetched, 0, id)
  {
    var more := if found.Some? then fetched + [found.value] else fetched;
    var i :| 0 <= i < |more| && more[i].id == id;
    assert i < |fetched| && fetched[i].id == id;
  }

  lemma StartedWereAwaited(s: System.State, id: AccountId)
    requires Step(s, StartChunk).Some? && Awaited(Step(s, StartChunk).value, id)
    ensures Awaited(s, id)
  {
    var stage := s.run.value.stage;
    var upto := Step(s, StartChunk).value.run.value.stage.end;
    if InRest(stage.accounts, upto, id) {
      var i :| 0 <= i < |stage.accounts| && upto <= i && stage.accounts[i].id == id;
      assert stage.end <= i;
    } else {
      var i :| 0 <= i < |stage.accounts[stage.end..upto]| && stage.accounts[stage.end..upto][i].id == id;
      assert stage.accounts[stage.end + i].id == id && stage.end <= stage.end + i;
    }
  }

  /** Nobody is awaited who was not before, but the entry a walk has just found undecided. */
  lemma AwaitedBefore(s: System.State, event: Event, id: AccountId)
    requires Inv(s) && Step(s, event).Some? && Awaited(Step(s, event).value, id) && event != WalkFeedback(id)
    ensures Awaited(s, id)
  {
    if IsRetryEvent(event) {
      RetryEventAwaitsNoMore(s, s.run.value, event, id);
    } else if IsPeriodicEvent(event) {
      PeriodicEventsAwaitNobody(s, event, id);
    } else if IsServerEvent(event) {
      ServerFrame(s, event);
    } else if IsEnvironmentEvent(event) {
      StartsAwaitNobody(s, event, id);
    } else if IsLeftoverEvent(event) {
      NothingLingers(s, event);
    } else if event.StartChunk? {
      StartedWereAwaited(s, id);
    } else if event.EndChunk? {
      EndChunkFrame(s, s.run.value);
    } else {
      CheckAwaitsNoMore(s, event.id, event.input, id);
    }
  }

  lemma CheckAwaitsNoMore(s: System.State, checked: AccountId, input: W.Input, id: AccountId)
    requires Step(s, Check(checked, input)).Some? && Awaited(Step(s, Check(checked, input)).value, id)
    ensures Awaited(s, id)
  {
    StepIsCheckStepped(s, checked, input);
    if checked == id && !InRest(s.run.value.stage.accounts, s.run.value.stage.end, id) {
      EarlyComesFromEarly(s, id, input);
    }
  }

  /** A check that is early after a step was early before it. */
  lemma EarlyComesFromEarly(s: System.State, id: AccountId, input: W.Input)
    requires Step(s, Check(id, input)).Some? && IsEarly(Step(s, Check(id, input)).value.run.value.stage.workers[id])
    ensures IsEarly(s.run.value.stage.workers[id])
  {
  }

  lemma PeriodicEventsAwaitNobody(s: System.State, event: Event, id: AccountId)
    requires Inv(s) && IsPeriodicEvent(event) && Step(s, event).Some?
    ensures !Awaited(Step(s, event).value, id)
  {
    OnlyOtherRunsArePeriodic(s, s.run.value, event);
    PeriodicFrame(s, event);
  }

  /** No retry run takes the steps of the periodic check or of a backfill. */
  lemma OnlyOtherRunsArePeriodic(s: System.State, run: Run, event: Event)
    requires RunInv(s) && s.run == Some(run) && IsPeriodicEvent(event) && StepPeriodic(s, run, event).Some?
    ensures !run.kind.RetryFailed?
  {
  }

  lemma StartsAwaitNobody(s: System.State, event: Event, id: AccountId)
    requires IsEnvironmentEvent(event) && Step(s, event).Some? && Awaited(Step(s, event).value, id)
    ensures Awaited(s, id)
  {
  }

  // ---------------------------------------------------------------------------------------------
  // Who stays clean

  lemma RetryEventKeepsClean(s: System.State, run: Run, event: Event, id: AccountId)
    requires IsRetryEvent(event) && s.run == Some(run) && StepRetry(s, run, event).Some? && Clean(s.redis, id)
    ensures Clean(StepRetry(s, run, event).value.redis, id)
  {
  }

  lemma FeedbackKeepsClean(s: System.State, event: Event, id: AccountId)
    requires IsServerEvent(event) && Step(s, event).Some? && Clean(s.redis, id)
    ensures Clean(Step(s, event).value.redis, id)
  {
  }

  /** The check of an awaited account writes nothing yet. */
  lemma AwaitedCheckKeepsClean(s: System.State, id: AccountId, checked: AccountId, input: W.Input)
    requires Inv(s) && Step(s, Check(checked, input)).Some? && Clean(s.redis, id)
    requires Awaited(s, id) && Awaited(Step(s, Check(checked, input)).value, id)
    ensures Clean(Step(s, Check(checked, input)).value.redis, id)
  {
    StepIsCheckStepped(s, checked, input);
    var run, stage := s.run.value, s.run.value.stage;
    var account, phase := FindAccount(stage.accounts, checked).value, stage.workers[checked];
    if checked == id {
      CheckedIsNotInRest(stage.accounts, stage.next, stage.end, id);
      StepWritesOrNot(s.redis, s.now, run.kind, run.process, account, phase, input);
    } else {
      CheckTouchesOnlyItsAccount(s.redis, s.now, run.kind, run.process, account, phase, input, id);
    }
  }

  /** Accounts are distinct: one under check is not among those to come. */
  lemma CheckedIsNotInRest(accounts: seq<Account>, next: nat, end: nat, id: AccountId)
    requires DistinctIds(accounts) && InPart(accounts, next, end, id)
    ensures !InRest(accounts, end, id)
  {
    var i :| next <= i < end && i < |accounts| && accounts[i].id == id;
    assert forall j :: end <= j < |accounts| ==> accounts[i].id != accounts[j].id;
  }

  lemma StepKeepsClean(s: System.State, event: Event, id: AccountId)
    requires Inv(s) && Step(s, event).Some? && Awaited(s, id) && Awaited(Step(s, event).value, id) && Clean(s.redis, id)
    ensures Clean(Step(s, event).value.redis, id)
  {
    if IsRetryEvent(event) {
      RetryEventKeepsClean(s, s.run.value, event, id);
    } else if IsPeriodicEvent(event) {
      PeriodicFrame(s, event);
    } else if IsServerEvent(event) {
      FeedbackKeepsClean(s, event, id);
    } else if IsEnvironmentEvent(event) {
      EnvironmentFrame(s, event);
    } else if IsLeftoverEvent(event) {
      NothingLingers(s, event);
    } else if event.Check? {
      AwaitedCheckKeepsClean(s, id, event.id, event.input);
    } else {
      ChunkFrame(s, event);
    }
  }

  /** An entry that a walk finds undecided is clean. */
  lemma FoundUndecided(s: System.State, id: AccountId)
    requires Inv(s) && Step(s, WalkFeedback(id)).Some? && Awaited(Step(s, WalkFeedback(id)).value, id) && AwaitedAreClean(s)
    ensures Clean(Step(s, WalkFeedback(id)).value.redis, id)
  {
    RetryFrame(s, WalkFeedback(id));
    assert AcctInv(s.redis, s.now, s.history, id);
    if id in s.run.value.stage.live {
      assert Awaited(s, id);
    }
  }

  lemma {:induction false} HistoryKeepsClean(events: seq<Event>)
    requires After(events).Some?
    ensures AwaitedAreClean(After(events).value)
    decreases |events|
  {
    if events != [] {
      var before, event := events[..|events| - 1], events[|events| - 1];
      LastStep(events);
      HistoryKeepsClean(before);
      var s, s' := After(before).value, After(events).value;
      forall id | Awaited(s', id) ensures Clean(s'.redis, id) {
        if event == WalkFeedback(id) {
          FoundUndecided(s, id);
        } else {
          AwaitedBefore(s, event, id);
          StepKeepsClean(s, event, id);
        }
      }
    }
  }

  // ---------------------------------------------------------------------------------------------
  // Theorem

  /** How a retry run's check may end well. */
  lemma EndsWell(r: Redis.State, now: nat, h: History, process: nat, account: Account, phase: W.Phase, input: W.Input)
    requires AcctInv(r, now, h, account.id) && CheckInv(r, now, h, W.RetryFailed, account, phase)
    requires W.Step(r, now, W.RetryFailed, process, account, phase, input).Some? && !IsSystemAccount(account)
    requires W.Step(r, now, W.RetryFailed, process, account, phase, input).value.1 == W.Done(true)
    requires IsEarly(phase) ==> Clean(r, account.id)
    ensures account.id !in Queued(W.Step(r, now, W.RetryFailed, process, account, phase, input).value.0)
  {
  }

  /**
   Over every history, a retry run's check of an account that is no system account leaves it in neither
   queue when it ends well, also when it stops at once because a moderator has decided the account
   since the queue was walked, or because its record is found completed.
   */
  lemma {:induction false} SuccessfulRetryLeavesTheQueue(events: seq<Event>, id: AccountId, input: W.Input)
    requires After(events).Some? && Step(After(events).value, Check(id, input)).Some?
    requires After(events).value.run.value.kind.RetryFailed?
    requires !IsSystemAccount(FindAccount(After(events).value.run.value.stage.accounts, id).value)
    requires PhaseOf(Step(After(events).value, Check(id, input)).value, id) == Some(W.Done(true))
    ensures id !in Queued(Step(After(events).value, Check(id, input)).value.redis)
  {
    HistoryKeepsInv(events);
    HistoryKeepsClean(events);
    var s := After(events).value;
    var run, stage := s.run.value, s.run.value.stage;
    StepIsCheckStepped(s, id, input);
    assert AcctInv(s.redis, s.now, s.history, id);
    assert IsEarly(stage.workers[id]) ==> Awaited(s, id);
    EndsWell(s.redis, s.now, s.history, run.process, FindAccount(stage.accounts, id).value, stage.workers[id], input);
  }

  // ---------------------------------------------------------------------------------------------
  // How far a run gets in its list

  /** In the run under way the check of the account had ended well after the first `m` events. */
  predicate EndedWellAt(events: seq<Event>, m: int, id: AccountId) {
    && 0 <= m < |events| && (forall k :: m <= k < |events| ==> !events[k].StartRun?)
    && After(events[..m]).Some? && PhaseOf(After(events[..m]).value, id) == Some(W.Done(true))
  }

  ghost predicate EndedWell(events: seq<Event>, id: AccountId) {
    exists m :: EndedWellAt(events, m, id)
  }

  /** Everyone before the chunk under way. */
  ghost predicate EarlierEndedWell(events: seq<Event>, stage: Stage) {
    stage.Checking? ==> forall i :: 0 <= i < stage.next && i < |stage.accounts| ==> EndedWell(events, stage.accounts[i].id)
  }

  lemma EndedWellStays(events: seq<Event>, event: Event, id: AccountId)
    requires EndedWell(events, id) && !event.StartRun?
    ensures EndedWell(events + [event], id)
  {
    var m :| EndedWellAt(events, m, id);
    var longer := events + [event];
    assert longer[..m] == events[..m];
    assert forall k :: m <= k < |events| ==> longer[k] == events[k];
    assert EndedWellAt(longer, m, id);
  }

  lemma JustEndedWell(events: seq<Event>, event: Event, id: AccountId)
    requires After(events).Some? && PhaseOf(After(events).value, id) == Some(W.Done(true)) && !event.StartRun?
    ensures EndedWell(events + [event], id)
  {
    assert (events + [event])[..|events|] == events;
    assert EndedWellAt(events + [event], |events|, id);
  }

  /** An event that comes to a chunk past the first: it goes on with the list, or only goes on in the chunk. */
  lemma OnlyEndChunkMovesOn(s: System.State, event: Event)
    requires Step(s, event).Some? && !IsLeftoverEvent(event)
    requires Step(s, event).value.run.Some? && Step(s, event).value.run.value.stage.Checking?
    requires Step(s, event).value.run.value.stage.next > 0
    ensures s.run.Some? && s.run.value.stage.Checking? && !event.StartRun?
    ensures var stage, stage' := s.run.value.stage, Step(s, event).value.run.value.stage;
            stage'.accounts == stage.accounts && stage'.next == (if event.EndChunk? then stage.end else stage.next)
  {
    if IsRetryEvent(event) {
      RetryStartsAtTheTop(s, s.run.value, event);
    } else if IsPeriodicEvent(event) {
      PeriodicStartsAtTheTop(s, s.run.value, event);
    } else if IsServerEvent(event) {
      ServerFrame(s, event);
    } else if IsEnvironmentEvent(event) {
      EnvironmentFrame(s, event);
    } else {
      ChecksMoveOn(s, event);
    }
  }

  lemma ChecksMoveOn(s: System.State, event: Event)
    requires IsCheckEvent(event) && Step(s, event).Some?
    requires Step(s, event).value.run.Some? && Step(s, event).value.run.value.stage.Checking?
    ensures s.run.Some? && s.run.value.stage.Checking?
    ensures var stage, stage' := s.run.value.stage, Step(s, event).value.run.value.stage;
            stage'.accounts == stage.accounts && stage'.next == (if event.EndChunk? then stage.end else stage.next)
  {
    if event.Check? {
      StepIsCheckStepped(s, event.id, event.input);
    } else if event.EndChunk? {
      EndChunkFrame(s, s.run.value);
    }
  }

  lemma RetryStartsAtTheTop(s: System.State, run: Run, event: Event)
    requires IsRetryEvent(event) && s.run == Some(run) && StepRetry(s, run, event).Some?
    ensures var run' := StepRetry(s, run, event).value.run;
            run'.Some? && run'.value.stage.Checking? ==> run'.value.stage.next == 0
  {
  }

  lemma PeriodicStartsAtTheTop(s: System.State, run: Run, event: Event)
    requires IsPeriodicEvent(event) && s.run == Some(run) && StepPeriodic(s, run, event).Some?
    ensures var run' := StepPeriodic(s, run, event).value.run;
            run'.Some? && run'.value.stage.Checking? ==> run'.value.stage.next == 0
  {
  }

  lemma {:induction false} SuccessesAreAll(accounts: seq<Account>, workers: map<AccountId, W.Phase>, next: nat, end: nat)
    requires next <= end <= |accounts|
    ensures Successes(accounts, workers, next, end) == end - next <==>
              forall i :: next <= i < end ==> accounts[i].id in workers && workers[accounts[i].id] == W.Done(true)
    decreases end - next
  {
    if next < end {
      SuccessesAreAll(accounts, workers, next + 1, end);
    }
  }

  /** A finished chunk is followed by another if and only if all of it ended well and there is more of the list. */
  lemma RunGoesOnIffChunkSucceeded(s: System.State)
    requires Step(s, EndChunk).Some?
    ensures var stage, run' := s.run.value.stage, Step(s, EndChunk).value.run;
            (run'.Some? && run'.value.stage.Checking?) <==>
              && stage.end < |stage.accounts|
              && forall i :: stage.next <= i < stage.end ==>
                   stage.accounts[i].id in stage.workers && stage.workers[stage.accounts[i].id] == W.Done(true)
  {
    var stage := s.run.value.stage;
    SuccessesAreAll(stage.accounts, stage.workers, stage.next, stage.end);
    EndChunkGoesOn(s, s.run.value);
  }

  /** A chunk is the next accounts of the list, as many as may run at once, and all their checks begin anew. */
  lemma ChunkIsTheNextOnes(s: System.State)
    requires Step(s, StartChunk).Some?
    ensures var run, stage, stage' := s.run.value, s.run.value.stage, Step(s, StartChunk).value.run.value.stage;
            && stage'.Checking? && stage'.accounts == stage.accounts && stage'.next == stage.end
            && stage'.end == (if stage.end + run.concurrency <= |stage.accounts| then stage.end + run.concurrency else |stage.accounts|)
            && (forall id :: id in stage'.workers <==> InPart(stage.accounts, stage.end, stage'.end, id))
            && (forall id :: id in stage'.workers ==> stage'.workers[id] == W.Start)
  {
    var stage, upto := s.run.value.stage, Step(s, StartChunk).value.run.value.stage.end;
    forall id ensures id in IdsOf(stage.accounts[stage.end..upto]) <==> InPart(stage.accounts, stage.end, upto, id) {
      SliceIsPart(stage.accounts, stage.end, upto, id);
    }
  }

  lemma SliceIsPart(accounts: seq<Account>, from: nat, upto: nat, id: AccountId)
    requires from <= upto <= |accounts|
    ensures id in IdsOf(accounts[from..upto]) <==> InPart(accounts, from, upto, id)
  {
    var slice := accounts[from..upto];
    if id in IdsOf(slice) {
      var i: nat :| i < |slice| && slice[i].id == id;
      assert from <= from + i < upto && accounts[from + i].id == id;
    }
    if InPart(accounts, from, upto, id) {
      var i: nat :| from <= i < upto && i < |accounts| && accounts[i].id == id;
      assert slice[i - from].id == id && 0 <= i - from < |slice|;
    }
  }

  predicate EndedAt(stage: Stage, i: nat)
    requires stage.Checking? && i < |stage.accounts|
  {
    stage.accounts[i].id in stage.workers && stage.workers[stage.accounts[i].id] == W.Done(true)
  }

  /**
   A run that does not go on ends, or, if it is periodic and its first account ended well, goes on to save
   the last account before its first failure.
   */
  lemma CursorIsTheLastSuccess(s: System.State)
    requires Step(s, EndChunk).Some?
    requires Step(s, EndChunk).value.run.None? || !Step(s, EndChunk).value.run.value.stage.Checking?
    ensures var run, stage, run' := s.run.value, s.run.value.stage, Step(s, EndChunk).value.run;
            && (run'.Some? <==> run.kind.PeriodicCheck? && (stage.next > 0 || EndedAt(stage, 0)))
            && (run'.Some? ==>
                  && run'.value.stage.SavingCursor? && run'.value.stage.accounts == stage.accounts
                  && var upto := run'.value.stage.upto;
                  && 0 < upto && stage.next <= upto <= stage.end
                  && (forall i :: stage.next <= i < upto ==> EndedAt(stage, i)) && (upto < stage.end ==> !EndedAt(stage, upto)))
  {
    EndChunkStops(s, s.run.value);
    SuccessesEnd(s.run.value.stage, s.run.value.stage.next);
  }

  /** The cursor becomes that account, unless it is beyond it already, and the run ends. */
  lemma CursorIsSaved(s: System.State)
    requires s.run.Some? && s.run.value.stage.SavingCursor? && 0 < s.run.value.stage.upto <= |s.run.value.stage.accounts|
    ensures var saved, next := s.run.value.stage.accounts[s.run.value.stage.upto - 1].id, Step(s, SaveCursor);
            && next.Some? && next.value.run.None?
            && next.value.redis.cursor == if s.redis.cursor.Some? && saved <= s.redis.cursor.value then s.redis.cursor else Some(saved)
  {
  }

  lemma EndChunkStops(s: System.State, run: Run)
    requires s.run == Some(run) && run.stage.Checking? && StepEndChunk(s, run).Some?
    requires StepEndChunk(s, run).value.run.None? || !StepEndChunk(s, run).value.run.value.stage.Checking?
    ensures var stage, s' := run.stage, StepEndChunk(s, run).value;
            var upto := stage.next + Successes(stage.accounts, stage.workers, stage.next, stage.end);
            && stage.next < stage.end <= |stage.accounts| && s'.redis == s.redis
            && s'.run == if run.kind.PeriodicCheck? && upto > 0 then Some(run.(stage := SavingCursor(stage.cursor, stage.accounts, upto))) else None
  {
  }

  lemma {:induction false} SuccessesEnd(stage: Stage, next: nat)
    requires stage.Checking? && next <= stage.end <= |stage.accounts|
    ensures var upto := next + Successes(stage.accounts, stage.workers, next, stage.end);
            upto < stage.end ==> !EndedAt(stage, upto)
    decreases stage.end - next
  {
    if next < stage.end && EndedAt(stage, next) {
      SuccessesEnd(stage, next + 1);
    }
  }

  lemma EndChunkGoesOn(s: System.State, run: Run)
    requires s.run == Some(run) && run.stage.Checking? && StepEndChunk(s, run).Some?
    ensures var stage, run' := run.stage, StepEndChunk(s, run).value.run;
            && stage.next < stage.end <= |stage.accounts|
            && ((run'.Some? && run'.value.stage.Checking?) <==>
                  stage.end < |stage.accounts| && Successes(stage.accounts, stage.workers, stage.next, stage.end) == stage.end - stage.next)
  {
  }

  lemma NextChunkFollowsSuccess(events: seq<Event>, s: System.State)
    requires After(events) == Some(s) && Inv(s) && Step(s, EndChunk).Some? && EarlierEndedWell(events, s.run.value.stage)
    requires Step(s, EndChunk).value.run.Some? && Step(s, EndChunk).value.run.value.stage.Checking?
    ensures EarlierEndedWell(events + [EndChunk], Step(s, EndChunk).value.run.value.stage)
  {
    var stage, stage' := s.run.value.stage, Step(s, EndChunk).value.run.value.stage;
    EndChunkFrame(s, s.run.value);
    RunGoesOnIffChunkSucceeded(s);
    forall i | 0 <= i < stage'.next && i < |stage'.accounts| ensures EndedWell(events + [EndChunk], stage'.accounts[i].id) {
      if i < stage.next {
        EndedWellStays(events, EndChunk, stage.accounts[i].id);
      } else {
        JustEndedWell(events, EndChunk, stage.accounts[i].id);
      }
    }
  }

  /**
   Over every history, a run of any kind that is at a chunk of its list has seen the check of every
   account of the chunks before it end well. So an account whose check fails in every run keeps the
   entries beyond its chunk from being reached, as `RunGoesOnIffChunkSucceeded` says the other way.
   */
  lemma {:induction false} ReachedOnlyAfterSuccess(events: seq<Event>)
    requires After(events).Some? && After(events).value.run.Some?
    ensures EarlierEndedWell(events, After(events).value.run.value.stage)
    decreases |events|
  {
    var stage' := After(events).value.run.value.stage;
    if stage'.Checking? && stage'.next > 0 {
      var before, event := events[..|events| - 1], events[|events| - 1];
      LastStep(events);
      assert before + [event] == events;
      var s := After(before).value;
      OnlyEndChunkMovesOn(s, event);
      ReachedOnlyAfterSuccess(before);
      if event.EndChunk? {
        NextChunkFollowsSuccess(before, s);
      } else {
        forall i | 0 <= i < stage'.next && i < |stage'.accounts| ensures EndedWell(events, stage'.accounts[i].id) {
          EndedWellStays(before, event, stage'.accounts[i].id);
        }
      }
    }
  }
}
