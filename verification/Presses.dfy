/**
 Slack clicks over whole histories: the feedback of an account is the verdict of the last button press that
 was recorded for it, and how a click goes on depends on that press and on what Mastodon answers.
 */
module Presses {
  import opened Wrappers
  import opened Accounts
  import opened Redis
  import opened System
  import opened AccountInvariants
  import opened Frames
  import opened SystemSteps
  import Server

  // ---------------------------------------------------------------------------------------------
  // Clicks and presses, by their events

  predicate TakesClick(s: Option<System.State>, task: nat, id: AccountId) {
    s.Some? && task !in s.value.tasks && id !in s.value.inFlight
  }

  /** Event `c` is a click that is taken on, as `task`, and still being handled before event `n`. */
  ghost predicate ClickedAt(origin: System.State, events: seq<Event>, c: int, n: int, task: nat, id: AccountId, button: Server.Button) {
    && 0 <= c < n <= |events| && events[c] == Click(task, id, button)
    && TakesClick(Play(origin, events[..c]), task, id)
    && forall m :: c < m < n ==> events[m] != DropGuard(task) && events[m] != CrashServer
  }

  /** There is a record to decide about or an earlier decision, and no notification is being delivered. */
  predicate MayDecide(r: Redis.State, now: nat, id: AccountId) {
    && (id in r.feedback || (id in r.jobs && (r.jobs[id].expiry.Some? ==> now < r.jobs[id].expiry.value)))
    && !(id in r.claims && now < r.claims[id].expiry)
  }

  predicate DecidesAt(s: Option<System.State>, id: AccountId) {
    s.Some? && MayDecide(s.value.redis, s.value.now, id)
  }

  predicate SendsFeedback(event: Event) {
    event.Handle? && event.action.FeedbackSent? && (event.action.answered || event.action.applied)
  }

  /** Event `n` is a button press on the account that is recorded. */
  ghost predicate Pressed(origin: System.State, events: seq<Event>, n: int, id: AccountId, button: Server.Button) {
    && 0 <= n < |events| && SendsFeedback(events[n])
    && (exists c :: ClickedAt(origin, events, c, n, events[n].task, id, button))
    && DecidesAt(Play(origin, events[..n]), id)
  }

  /** The last press on the account that is recorded. */
  ghost predicate LastPress(origin: System.State, events: seq<Event>, n: int, id: AccountId, button: Server.Button) {
    Pressed(origin, events, n, id, button) && forall m, other :: n < m ==> !Pressed(origin, events, m, id, other)
  }

  ghost predicate LastPressed(origin: System.State, events: seq<Event>, id: AccountId, button: Server.Button) {
    exists n :: LastPress(origin, events, n, id, button)
  }

  // ---------------------------------------------------------------------------------------------
  // Tasks are clicks

  lemma OnlyServerEventsTouchTasks(s: System.State, event: Event)
    requires Step(s, event).Some? && !IsServerEvent(event)
    ensures Step(s, event).value.tasks == s.tasks
  {
    if IsRetryEvent(event) {
      RetryFrame(s, event);
    } else if IsPeriodicEvent(event) {
      PeriodicFrame(s, event);
    } else if IsEnvironmentEvent(event) {
      EnvironmentFrame(s, event);
    } else if IsLeftoverEvent(event) {
      LeftoverFrame(s, event);
    } else if event.Check? {
      StepIsCheckStepped(s, event.id, event.input);
    } else {
      ChunkFrame(s, event);
    }
  }

  predicate IsTask(s: System.State, task: nat, id: AccountId, button: Server.Button) {
    task in s.tasks && s.tasks[task].id == id && s.tasks[task].button == button
  }

  lemma StepTasks(s: System.State, event: Event, task: nat, id: AccountId, button: Server.Button)
    requires Step(s, event).Some?
    ensures IsTask(Step(s, event).value, task, id, button) <==>
            || (event == Click(task, id, button) && TakesClick(Some(s), task, id))
            || (IsTask(s, task, id, button) && event != DropGuard(task) && event != CrashServer)
  {
    if !IsServerEvent(event) {
      OnlyServerEventsTouchTasks(s, event);
    }
  }

  lemma ClickedSoFar(origin: System.State, events: seq<Event>, event: Event, c: int, n: int, task: nat, id: AccountId, button: Server.Button)
    requires n <= |events|
    ensures ClickedAt(origin, events + [event], c, n, task, id, button) <==> ClickedAt(origin, events, c, n, task, id, button)
  {
    if 0 <= c < n {
      assert (events + [event])[..c] == events[..c];
      assert forall m :: 0 <= m < n ==> (events + [event])[m] == events[m];
    }
  }

  /** The click is being handled after those events. */
  ghost predicate Clicked(origin: System.State, events: seq<Event>, task: nat, id: AccountId, button: Server.Button) {
    exists c :: ClickedAt(origin, events, c, |events|, task, id, button)
  }

  lemma ClickJustTaken(origin: System.State, events: seq<Event>, task: nat, id: AccountId, button: Server.Button)
    requires TakesClick(Play(origin, events), task, id)
    ensures Clicked(origin, events + [Click(task, id, button)], task, id, button)
  {
    var longer := events + [Click(task, id, button)];
    assert longer[..|events|] == events;
    assert ClickedAt(origin, longer, |events|, |longer|, task, id, button);
  }

  lemma ClickStays(origin: System.State, events: seq<Event>, event: Event, task: nat, id: AccountId, button: Server.Button)
    requires Clicked(origin, events, task, id, button) && event != DropGuard(task) && event != CrashServer
    ensures Clicked(origin, events + [event], task, id, button)
  {
    var c :| ClickedAt(origin, events, c, |events|, task, id, button);
    var longer := events + [event];
    assert longer[..c] == events[..c] && longer[|events|] == event;
    assert forall m :: 0 <= m < |events| ==> longer[m] == events[m];
    assert ClickedAt(origin, longer, c, |longer|, task, id, button);
  }

  lemma ClickWasTaken(origin: System.State, events: seq<Event>, event: Event, task: nat, id: AccountId, button: Server.Button)
    requires Clicked(origin, events + [event], task, id, button)
    ensures || (event == Click(task, id, button) && TakesClick(Play(origin, events), task, id))
            || (Clicked(origin, events, task, id, button) && event != DropGuard(task) && event != CrashServer)
  {
    var longer := events + [event];
    var c :| ClickedAt(origin, longer, c, |longer|, task, id, button);
    assert longer[..c] == events[..c] && longer[|events|] == event;
    if c == |events| {
      assert events[..c] == events;
    } else {
      assert forall m :: 0 <= m < |events| ==> longer[m] == events[m];
      assert ClickedAt(origin, events, c, |events|, task, id, button);
    }
  }

  /** The tasks of the server are the clicks that have been taken on and not ended since. */
  lemma {:induction false} TasksAreClicks(origin: System.State, events: seq<Event>, task: nat, id: AccountId, button: Server.Button)
    requires origin.tasks == map[] && Play(origin, events).Some?
    ensures IsTask(Play(origin, events).value, task, id, button) <==> Clicked(origin, events, task, id, button)
    decreases |events|
  {
    if events != [] {
      var before, event := events[..|events| - 1], events[|events| - 1];
      var s := Play(origin, before).value;
      assert before + [event] == events;
      TasksAreClicks(origin, before, task, id, button);
      StepTasks(s, event, task, id, button);
      if event == Click(task, id, button) && TakesClick(Some(s), task, id) {
        ClickJustTaken(origin, before, task, id, button);
      } else if Clicked(origin, before, task, id, button) && event != DropGuard(task) && event != CrashServer {
        ClickStays(origin, before, event, task, id, button);
      } else if Clicked(origin, events, task, id, button) {
        ClickWasTaken(origin, before, event, task, id, button);
      }
    }
  }

  // ---------------------------------------------------------------------------------------------
  // Feedback is the last press

  /** The event is a press on the account by that button, and is recorded. */
  predicate PressesNow(s: System.State, event: Event, id: AccountId, button: Server.Button) {
    SendsFeedback(event) && IsTask(s, event.task, id, button) && MayDecide(s.redis, s.now, id)
  }

  lemma OtherEventsKeepFeedback(s: System.State, event: Event)
    requires Step(s, event).Some? && !IsServerEvent(event)
    ensures Step(s, event).value.redis.feedback == s.redis.feedback
  {
    if IsRetryEvent(event) {
      RetryFrame(s, event);
    } else if IsPeriodicEvent(event) {
      PeriodicFrame(s, event);
    } else if IsEnvironmentEvent(event) {
      EnvironmentFrame(s, event);
    } else if event.LeftoverCheck? {
      var run := s.leftovers[event.slot];
      var account := FindAccount(run.stage.accounts, event.id).value;
      CheckTouchesOnlyItsAccount(s.redis, s.now, run.kind, run.process, account, run.stage.workers[event.id], event.input, account.id + 1);
    } else if IsLeftoverEvent(event) {
      LeftoverFrame(s, event);
    } else if event.Check? {
      var run, stage := s.run.value, s.run.value.stage;
      var account := FindAccount(stage.accounts, event.id).value;
      CheckTouchesOnlyItsAccount(s.redis, s.now, run.kind, run.process, account, stage.workers[event.id], event.input, account.id + 1);
    } else {
      ChunkFrame(s, event);
    }
  }

  /** What one event makes of an account's feedback. */
  lemma StepFeedback(s: System.State, event: Event, id: AccountId)
    requires Step(s, event).Some?
    ensures var f, f' := FeedbackStatus(s.redis, id), FeedbackStatus(Step(s, event).value.redis, id);
            && (PressesNow(s, event, id, Server.MarkFalsePositive) ==> f' == Some(FalsePositive))
            && (PressesNow(s, event, id, Server.ConfirmSpam) ==> f' == Some(ConfirmedSpam))
            && !PressesNow(s, event, id, Server.Suspend) && !PressesNow(s, event, id, Server.Delete)
            && (!PressesNow(s, event, id, Server.MarkFalsePositive) && !PressesNow(s, event, id, Server.ConfirmSpam) ==> f' == f)
  {
    if IsServerEvent(event) {
      HandleFeedback(s, event, id);
    } else {
      OtherEventsKeepFeedback(s, event);
    }
  }

  lemma HandleFeedback(s: System.State, event: Event, id: AccountId)
    requires IsServerEvent(event) && Step(s, event).Some?
    ensures var f, f' := FeedbackStatus(s.redis, id), FeedbackStatus(Step(s, event).value.redis, id);
            && (PressesNow(s, event, id, Server.MarkFalsePositive) ==> f' == Some(FalsePositive))
            && (PressesNow(s, event, id, Server.ConfirmSpam) ==> f' == Some(ConfirmedSpam))
            && !PressesNow(s, event, id, Server.Suspend) && !PressesNow(s, event, id, Server.Delete)
            && (!PressesNow(s, event, id, Server.MarkFalsePositive) && !PressesNow(s, event, id, Server.ConfirmSpam) ==> f' == f)
  {
  }

  /** A press that is recorded takes the account out of both queues and touches nothing else. */
  lemma PressDequeues(s: System.State, event: Event, id: AccountId, button: Server.Button)
    requires Step(s, event).Some? && PressesNow(s, event, id, button)
    ensures var r, r' := s.redis, Step(s, event).value.redis;
            && id !in r'.failed && id !in r'.pending
            && r' == r.(feedback := r'.feedback, failed := r.failed - {id}, pending := r.pending - {id})
            && r'.feedback.Keys == r.feedback.Keys + {id}
            && (forall other :: other in r.feedback && other != id ==> r'.feedback[other] == r.feedback[other])
  {
  }

  lemma PressedSoFar(origin: System.State, events: seq<Event>, event: Event, n: int, id: AccountId, button: Server.Button)
    requires 0 <= n < |events|
    ensures Pressed(origin, events + [event], n, id, button) <==> Pressed(origin, events, n, id, button)
  {
    assert (events + [event])[..n] == events[..n] && (events + [event])[n] == events[n];
    if SendsFeedback(events[n]) {
      var task := events[n].task;
      forall c ensures ClickedAt(origin, events + [event], c, n, task, id, button) <==> ClickedAt(origin, events, c, n, task, id, button) {
        ClickedSoFar(origin, events, event, c, n, task, id, button);
      }
    }
  }

  lemma PressedJustNow(origin: System.State, events: seq<Event>, event: Event, id: AccountId, button: Server.Button)
    requires origin.tasks == map[] && Play(origin, events).Some?
    ensures Pressed(origin, events + [event], |events|, id, button) <==> PressesNow(Play(origin, events).value, event, id, button)
  {
    var longer := events + [event];
    assert longer[..|events|] == events && longer[|events|] == event;
    if SendsFeedback(event) {
      TasksAreClicks(origin, events, event.task, id, button);
      forall c ensures ClickedAt(origin, longer, c, |events|, event.task, id, button) <==> ClickedAt(origin, events, c, |events|, event.task, id, button) {
        ClickedSoFar(origin, events, event, c, |events|, event.task, id, button);
      }
    }
  }

  /** The presses of a longer history: those before, and one more if the last event is one. */
  lemma PressedAfter(origin: System.State, events: seq<Event>, event: Event, n: int, id: AccountId, button: Server.Button)
    requires origin.tasks == map[] && Play(origin, events).Some?
    ensures Pressed(origin, events + [event], n, id, button) <==>
            || Pressed(origin, events, n, id, button)
            || (n == |events| && PressesNow(Play(origin, events).value, event, id, button))
  {
    if 0 <= n < |events| {
      PressedSoFar(origin, events, event, n, id, button);
    } else if n == |events| {
      PressedJustNow(origin, events, event, id, button);
    }
  }

  lemma PressIsLast(origin: System.State, events: seq<Event>, event: Event, id: AccountId, button: Server.Button)
    requires origin.tasks == map[] && Play(origin, events).Some? && PressesNow(Play(origin, events).value, event, id, button)
    ensures LastPressed(origin, events + [event], id, button)
    ensures forall other :: LastPressed(origin, events + [event], id, other) ==> PressesNow(Play(origin, events).value, event, id, other)
  {
    var longer := events + [event];
    PressedAfter(origin, events, event, |events|, id, button);
    assert LastPress(origin, longer, |events|, id, button);
    forall other | LastPressed(origin, longer, id, other) ensures PressesNow(Play(origin, events).value, event, id, other) {
      var n :| LastPress(origin, longer, n, id, other);
      assert !(n < |events|) by {
        assert Pressed(origin, longer, |events|, id, button);
      }
      PressedAfter(origin, events, event, n, id, other);
    }
  }

  lemma LastPressStays(origin: System.State, events: seq<Event>, event: Event, id: AccountId, button: Server.Button)
    requires origin.tasks == map[] && Play(origin, events).Some?
    requires forall other :: !PressesNow(Play(origin, events).value, event, id, other)
    ensures LastPressed(origin, events + [event], id, button) <==> LastPressed(origin, events, id, button)
    ensures NeverPressed(origin, events + [event], id) <==> NeverPressed(origin, events, id)
  {
    var longer := events + [event];
    forall n, other ensures Pressed(origin, longer, n, id, other) <==> Pressed(origin, events, n, id, other) {
      PressedAfter(origin, events, event, n, id, other);
    }
    if LastPressed(origin, events, id, button) {
      var n :| LastPress(origin, events, n, id, button);
      assert LastPress(origin, longer, n, id, button);
    }
    if LastPressed(origin, longer, id, button) {
      var n :| LastPress(origin, longer, n, id, button);
      assert LastPress(origin, events, n, id, button);
    }
    SamePressesNever(origin, events, longer, id);
  }

  lemma SamePressesNever(origin: System.State, events: seq<Event>, longer: seq<Event>, id: AccountId)
    requires forall n, button :: Pressed(origin, longer, n, id, button) <==> Pressed(origin, events, n, id, button)
    ensures NeverPressed(origin, longer, id) <==> NeverPressed(origin, events, id)
  {
  }

  /** No button press on the account has been recorded. */
  ghost predicate NeverPressed(origin: System.State, events: seq<Event>, id: AccountId) {
    forall n, button :: !Pressed(origin, events, n, id, button)
  }

  predicate AnyPressesNow(s: System.State, event: Event, id: AccountId) {
    SendsFeedback(event) && event.task in s.tasks && s.tasks[event.task].id == id && MayDecide(s.redis, s.now, id)
  }

  lemma SomePressIsLast(origin: System.State, events: seq<Event>, event: Event, id: AccountId)
    requires origin.tasks == map[] && Play(origin, events).Some? && Step(Play(origin, events).value, event).Some?
    requires AnyPressesNow(Play(origin, events).value, event, id)
    ensures VerdictOf(origin, events + [event], FeedbackStatus(Step(Play(origin, events).value, event).value.redis, id), id)
  {
    var s := Play(origin, events).value;
    var button := s.tasks[event.task].button;
    assert PressesNow(s, event, id, button);
    StepFeedback(s, event, id);
    PressIsLast(origin, events, event, id, button);
    PressedAfter(origin, events, event, |events|, id, button);
    assert !NeverPressed(origin, events + [event], id);
  }

  /** The feedback is the verdict of the last press recorded, and there is none if and only if none was. */
  ghost predicate VerdictOf(origin: System.State, events: seq<Event>, f: Option<JobStatus>, id: AccountId) {
    && (f == Some(FalsePositive) <==> LastPressed(origin, events, id, Server.MarkFalsePositive))
    && (f == Some(ConfirmedSpam) <==> LastPressed(origin, events, id, Server.ConfirmSpam))
    && (f == None <==> NeverPressed(origin, events, id))
    && (f == None || f == Some(FalsePositive) || f == Some(ConfirmedSpam))
  }

  /**
   Over every history, also with checks that outlive their run, an account is on file as a false
   positive if and only if the last press recorded for it was by the button that says so, as confirmed
   spam if and only if it was by the one that confirms, and has no feedback if and only if none was recorded.
   */
  lemma {:induction false} FeedbackIsTheLastPress(origin: System.State, events: seq<Event>, id: AccountId)
    requires origin.tasks == map[] && origin.redis.feedback == map[] && Play(origin, events).Some?
    ensures VerdictOf(origin, events, FeedbackStatus(Play(origin, events).value.redis, id), id)
    decreases |events|
  {
    if events != [] {
      var before, event := events[..|events| - 1], events[|events| - 1];
      var s := Play(origin, before).value;
      assert before + [event] == events;
      FeedbackIsTheLastPress(origin, before, id);
      if AnyPressesNow(s, event, id) {
        SomePressIsLast(origin, before, event, id);
      } else {
        StepFeedback(s, event, id);
        LastPressStays(origin, before, event, id, Server.MarkFalsePositive);
        LastPressStays(origin, before, event, id, Server.ConfirmSpam);
      }
    }
  }

  // ---------------------------------------------------------------------------------------------
  // How a click goes on

  /** What is to come next for a click, given whether the account has last been cleared. */
  predicate GoesOn(task: Server.Task, input: Server.TaskInput, cleared: bool, next: Option<Server.TaskPhase>) {
    match task.phase
    case CheckFeedback =>
      next == if !input.FeedbackRead? then None else if input.ok && !cleared then Some(Server.CheckSuspended) else Some(Server.Closing)
    case CheckSuspended =>
      if !input.SuspensionRead? then next == None
      else
        && next.Some?
        && (next.value.Issuing? <==> (task.button.Suspend? && input.suspended != Some(true)) || (!task.button.Suspend? && input.suspended == Some(true)))
        && (!next.value.Issuing? ==> next.value.Closing?)
    case Issuing => next == if input.RequestSent? then Some(Server.Calling) else None
    case Calling => next == if input.RequestAnswered? then Some(Server.Closing) else None
    case WriteFeedback => input.FeedbackSent? && (task.button.ConfirmSpam? || task.button.MarkFalsePositive?) ==> next == Some(Server.Closing)
    case Closing => next == None
  }

  /**
   Over every history a click goes on in this way and no other: a suspend or delete is refused if the
   feedback cannot be read or the last press cleared the account; a suspend is then issued unless the
   account is known to be suspended, a delete only if it is.
   */
  lemma {:induction false} ClickGoesOn(origin: System.State, events: seq<Event>, task: nat, input: Server.TaskInput)
    requires origin.tasks == map[] && origin.redis.feedback == map[] && Play(origin, events).Some?
    requires task in Play(origin, events).value.tasks
    ensures var s := Play(origin, events).value;
            var next := Step(s, Handle(task, input));
            GoesOn(s.tasks[task], input, LastPressed(origin, events, s.tasks[task].id, Server.MarkFalsePositive),
                   if next.Some? && task in next.value.tasks then Some(next.value.tasks[task].phase) else None)
  {
    FeedbackIsTheLastPress(origin, events, Play(origin, events).value.tasks[task].id);
  }

  /** A click that is taken on begins with its feedback check or, for the two verdicts, with the write. */
  lemma ClickBegins(s: System.State, task: nat, id: AccountId, button: Server.Button)
    requires TakesClick(Some(s), task, id)
    ensures var s' := Step(s, Click(task, id, button));
            && s'.Some? && IsTask(s'.value, task, id, button) && s'.value.redis == s.redis
            && (button.Suspend? || button.Delete? ==> s'.value.tasks[task].phase.CheckFeedback?)
            && (button.ConfirmSpam? || button.MarkFalsePositive? ==> s'.value.tasks[task].phase.WriteFeedback?)
  {
  }
}
