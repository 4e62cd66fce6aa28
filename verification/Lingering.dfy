/**
 What still holds when the checks of a run that lost its lease may go on beside the next run's: the
 exclusion of claims and feedback, the cursor and what it covers, the handling of clicks, and the
 exclusion of deliveries, which the notification claim gives without the run lease.
 */
module Lingering {
  import opened Wrappers
  import opened Accounts
  import opened Redis
  import opened System
  import opened AccountInvariants
  import opened SystemInvariants
  import opened SystemSteps
  import opened Frames
  import opened Presses
  import opened Safety
  import W = Worker
  import Server
  import Http

  // ---------------------------------------------------------------------------------------------
  // The invariant

  ghost predicate AcctCore(r: Redis.State, now: nat, h: History, id: AccountId) {
    && (Claimed(r, now, id) ==> id !in r.feedback)
    && (Settles(r, id) ==> id in h.settled)
  }

  /** A check settles its account when it completes it, and has found or made it settled when it ends well. */
  ghost predicate WorkerCore(h: History, account: Account, phase: W.Phase) {
    && (phase.Completing? ==> phase.status.IsCompleted())
    && (phase.Done? && phase.ok ==> SettledOrSystem(h, account))
  }

  ghost predicate WorkersCore(h: History, accounts: seq<Account>, workers: map<AccountId, W.Phase>) {
    forall id :: id in workers ==>
      && FindAccount(accounts, id).Some? && FindAccount(accounts, id).value.id == id
      && WorkerCore(h, FindAccount(accounts, id).value, workers[id])
  }

  predicate IsRetryStage(stage: Stage) {
    || stage.ReadingFailed? || stage.ReadingPending? || stage.Walking? || stage.Looking? || stage.Removing?
    || stage.Fetching? || stage.MarkReading? || stage.MarkWriting?
  }

  ghost predicate StageCore(s: System.State, kind: W.RunKind, stage: Stage) {
    && (IsRetryStage(stage) ==> kind.RetryFailed?)
    && (stage.Listing? && kind.PeriodicCheck? ==> stage.cursor == s.redis.cursor)
    && (stage.Checking? ==> WorkersCore(s.history, stage.accounts, stage.workers))
    && (stage.Checking? && kind.PeriodicCheck? ==>
          ListInv(s, stage.cursor, stage.accounts) && PrefixSettled(s.history, stage.accounts, stage.next))
    && (stage.SavingCursor? ==>
          && kind.PeriodicCheck? && 0 < stage.upto
          && ListInv(s, stage.cursor, stage.accounts) && PrefixSettled(s.history, stage.accounts, stage.upto))
  }

  ghost predicate RunCore(s: System.State, run: Option<Run>) {
    run.Some? ==> StageCore(s, run.value.kind, run.value.stage)
  }

  ghost predicate LeftoversCore(s: System.State, leftovers: map<nat, Run>) {
    forall slot :: slot in leftovers && leftovers[slot].stage.Checking? ==>
      WorkersCore(s.history, leftovers[slot].stage.accounts, leftovers[slot].stage.workers)
  }

  ghost predicate AcctsCore(s: System.State) {
    forall id :: AcctCore(s.redis, s.now, s.history, id)
  }

  ghost predicate Core(s: System.State) {
    && AcctsCore(s) && ListedInv(s) && CursorInv(s) && ServerInv(s)
    && RunCore(s, s.run) && LeftoversCore(s, s.leftovers)
  }

  // ---------------------------------------------------------------------------------------------
  // Framing

  /** The listing, the cursor and the first account stay, and what is settled grows. */
  ghost predicate Onward(s: System.State, s': System.State) {
    && s'.listed == s.listed && s'.redis.cursor == s.redis.cursor && s'.history.base == s.history.base
    && s.history.settled <= s'.history.settled
  }

  lemma WorkersOnward(h: History, h': History, accounts: seq<Account>, workers: map<AccountId, W.Phase>)
    requires WorkersCore(h, accounts, workers) && h.settled <= h'.settled
    ensures WorkersCore(h', accounts, workers)
  {
  }

  lemma StageOnward(s: System.State, s': System.State, kind: W.RunKind, stage: Stage)
    requires StageCore(s, kind, stage) && Onward(s, s')
    ensures StageCore(s', kind, stage)
  {
    if stage.Checking? {
      WorkersOnward(s.history, s'.history, stage.accounts, stage.workers);
    }
  }

  lemma LeftoversOnward(s: System.State, s': System.State, leftovers: map<nat, Run>)
    requires LeftoversCore(s, leftovers) && s.history.settled <= s'.history.settled
    ensures LeftoversCore(s', leftovers)
  {
    forall slot | slot in leftovers && leftovers[slot].stage.Checking?
      ensures WorkersCore(s'.history, leftovers[slot].stage.accounts, leftovers[slot].stage.workers)
    {
      WorkersOnward(s.history, s'.history, leftovers[slot].stage.accounts, leftovers[slot].stage.workers);
    }
  }

  /** An event that only moves Redis and the run onward, and leaves clicks alone. */
  lemma CoreOnward(s: System.State, s': System.State)
    requires Core(s) && Onward(s, s') && AcctsCore(s') && RunCore(s', s'.run) && s'.leftovers == s.leftovers
    requires s'.tasks == s.tasks && s'.inFlight == s.inFlight && s'.redis.feedback == s.redis.feedback
    ensures Core(s')
  {
    LeftoversOnward(s, s', s.leftovers);
  }

  /** Accounts whose records, claims and feedback are as before need nothing new. */
  lemma AcctsOnward(s: System.State, s': System.State)
    requires AcctsCore(s) && s'.now == s.now && OnlySettles(s, s')
    requires s'.redis.claims == s.redis.claims && s'.redis.feedback == s.redis.feedback
    requires forall id :: Settles(s'.redis, id) ==> Settles(s.redis, id) || id in s'.history.settled
    requires s.history.settled <= s'.history.settled
    ensures AcctsCore(s')
  {
    forall id ensures AcctCore(s'.redis, s'.now, s'.history, id) {
      assert AcctCore(s.redis, s.now, s.history, id);
    }
  }

  // ---------------------------------------------------------------------------------------------
  // Checks, of a run or left over

  lemma CheckStepCore(r: Redis.State, now: nat, h: History, kind: W.RunKind, process: nat, account: Account, phase: W.Phase, input: W.Input)
    requires AcctCore(r, now, h, account.id) && WorkerCore(h, account, phase)
    requires W.Step(r, now, kind, process, account, phase, input).Some?
    ensures var (r', after) := W.Step(r, now, kind, process, account, phase, input).value;
            var h' := HistoryAfter(h, r', kind, account.id, phase, input);
            AcctCore(r', now, h', account.id) && WorkerCore(h', account, after)
  {
  }

  /** A check's step somewhere in the service: what it does to Redis and to the history. */
  ghost predicate AccountStepped(s: System.State, s': System.State, kind: W.RunKind, process: nat, account: Account, phase: W.Phase, input: W.Input, after: W.Phase)
  {
    && W.Step(s.redis, s.now, kind, process, account, phase, input) == Some((s'.redis, after))
    && s'.history == HistoryAfter(s.history, s'.redis, kind, account.id, phase, input)
    && s'.now == s.now && s'.listed == s.listed && s'.tasks == s.tasks && s'.inFlight == s.inFlight
  }

  lemma AccountStepKeepsAccts(s: System.State, s': System.State, kind: W.RunKind, process: nat, account: Account, phase: W.Phase, input: W.Input, after: W.Phase)
    requires AcctsCore(s) && WorkerCore(s.history, account, phase)
    requires AccountStepped(s, s', kind, process, account, phase, input, after)
    ensures AcctsCore(s') && Onward(s, s') && s'.redis.feedback == s.redis.feedback && WorkerCore(s'.history, account, after)
  {
    assert AcctCore(s.redis, s.now, s.history, account.id);
    CheckStepCore(s.redis, s.now, s.history, kind, process, account, phase, input);
    CheckHistoryGrows(s.history, s'.redis, kind, account.id, phase, input);
    CheckTouchesOnlyItsAccount(s.redis, s.now, kind, process, account, phase, input, account.id + 1);
    forall id ensures AcctCore(s'.redis, s'.now, s'.history, id) {
      if id != account.id {
        CheckTouchesOnlyItsAccount(s.redis, s.now, kind, process, account, phase, input, id);
        assert AcctCore(s.redis, s.now, s.history, id);
      }
    }
  }

  lemma WorkersStep(h: History, h': History, accounts: seq<Account>, workers: map<AccountId, W.Phase>, id: AccountId, after: W.Phase)
    requires WorkersCore(h, accounts, workers) && h.settled <= h'.settled && id in workers
    requires WorkerCore(h', FindAccount(accounts, id).value, after)
    ensures WorkersCore(h', accounts, workers[id := after])
  {
  }

  lemma CheckKeepsCore(s: System.State, id: AccountId, input: W.Input)
    requires Core(s) && Step(s, Check(id, input)).Some?
    ensures Core(Step(s, Check(id, input)).value)
  {
    var s' := Step(s, Check(id, input)).value;
    StepIsCheckStepped(s, id, input);
    var run, stage := s.run.value, s.run.value.stage;
    var account, after := FindAccount(stage.accounts, id).value, s'.run.value.stage.workers[id];
    AccountStepKeepsAccts(s, s', run.kind, run.process, account, stage.workers[id], input, after);
    WorkersStep(s.history, s'.history, stage.accounts, stage.workers, id, after);
    StageOnward(s, s', run.kind, stage);
    CoreOnward(s, s');
  }

  /** What one step of one left-over check does to the service. */
  ghost predicate LeftoverStepped(s: System.State, slot: nat, id: AccountId, input: W.Input, s': System.State) {
    && slot in s.leftovers && s.leftovers[slot].stage.Checking?
    && var run := s.leftovers[slot];
    && id in run.stage.workers && FindAccount(run.stage.accounts, id).Some?
    && var (account, phase) := (FindAccount(run.stage.accounts, id).value, run.stage.workers[id]);
    && var stepped := W.Step(s.redis, s.now, run.kind, run.process, account, phase, input);
    && stepped.Some?
    && s'.redis == stepped.value.0
    && s'.history == HistoryAfter(s.history, s'.redis, run.kind, id, phase, input)
    && s' == s.(redis := s'.redis, history := s'.history,
                leftovers := s.leftovers[slot := run.(stage := run.stage.(workers := run.stage.workers[id := stepped.value.1]))])
  }

  lemma StepIsLeftoverStepped(s: System.State, slot: nat, id: AccountId, input: W.Input)
    requires StepLeftoverCheck(s, slot, id, input).Some?
    ensures LeftoverStepped(s, slot, id, input, StepLeftoverCheck(s, slot, id, input).value)
  {
  }

  lemma LeftoverCheckKeepsCore(s: System.State, slot: nat, id: AccountId, input: W.Input, s': System.State)
    requires Core(s) && LeftoverStepped(s, slot, id, input, s')
    ensures Core(s')
  {
    var run, stage := s.leftovers[slot], s.leftovers[slot].stage;
    var account, after := FindAccount(stage.accounts, id).value, s'.leftovers[slot].stage.workers[id];
    AccountStepKeepsAccts(s, s', run.kind, run.process, account, stage.workers[id], input, after);
    WorkersStep(s.history, s'.history, stage.accounts, stage.workers, id, after);
    RunsOnward(s, s');
    OneLeftoverSteps(s', s.leftovers, slot, run.(stage := stage.(workers := stage.workers[id := after])));
  }

  /** The run under way, and the leftovers as they were, go on. */
  lemma RunsOnward(s: System.State, s': System.State)
    requires Core(s) && Onward(s, s') && s'.run == s.run
    ensures RunCore(s', s'.run) && LeftoversCore(s', s.leftovers) && CursorInv(s') && ListedInv(s')
  {
    LeftoversOnward(s, s', s.leftovers);
    if s.run.Some? {
      StageOnward(s, s', s.run.value.kind, s.run.value.stage);
    }
  }

  lemma OneLeftoverSteps(s: System.State, leftovers: map<nat, Run>, slot: nat, run: Run)
    requires LeftoversCore(s, leftovers) && run.stage.Checking? && WorkersCore(s.history, run.stage.accounts, run.stage.workers)
    ensures LeftoversCore(s, leftovers[slot := run])
  {
  }

  lemma LeftoverKeepsCore(s: System.State, event: Event)
    requires IsLeftoverEvent(event) && Core(s) && Step(s, event).Some?
    ensures Core(Step(s, event).value)
  {
    match event {
      case LoseLease(_) =>
      case LeftoverCheck(slot, id, input) =>
        StepIsLeftoverStepped(s, slot, id, input);
        LeftoverCheckKeepsCore(s, slot, id, input, Step(s, event).value);
      case LeftoverEnds(_) =>
    }
  }

  // ---------------------------------------------------------------------------------------------
  // The other events of a run

  lemma StartChunkKeepsCore(s: System.State)
    requires Core(s) && Step(s, StartChunk).Some?
    ensures Core(Step(s, StartChunk).value)
  {
    var s' := Step(s, StartChunk).value;
    var stage' := s'.run.value.stage;
    forall id | id in stage'.workers
      ensures FindAccount(stage'.accounts, id).Some? && FindAccount(stage'.accounts, id).value.id == id
    {
      ChunkIsInList(stage'.accounts, stage'.next, stage'.end, id);
    }
  }

  lemma PrefixExtends(h: History, accounts: seq<Account>, next: nat, end: nat, workers: map<AccountId, W.Phase>)
    requires next <= end <= |accounts| && StrictlyAscending(accounts)
    requires WorkersCore(h, accounts, workers) && PrefixSettled(h, accounts, next)
    ensures PrefixSettled(h, accounts, next + Successes(accounts, workers, next, end))
  {
    var n := Successes(accounts, workers, next, end);
    forall i | next <= i < next + n ensures SettledOrSystem(h, accounts[i]) {
      FindPresent(accounts, i);
      assert WorkerCore(h, accounts[i], workers[accounts[i].id]);
    }
  }

  lemma EndChunkKeepsCore(s: System.State)
    requires Core(s) && Step(s, EndChunk).Some?
    ensures Core(Step(s, EndChunk).value)
  {
    EndChunkFrame(s, s.run.value);
    EndChunkKeepsRunCore(s, s.run.value);
    AtAnotherStage(s, Step(s, EndChunk).value);
  }

  /** An event that changes nothing but where the run stands. */
  lemma AtAnotherStage(s: System.State, s': System.State)
    requires Core(s) && s' == s.(run := s'.run) && RunCore(s, s'.run)
    ensures Core(s')
  {
    if s'.run.Some? {
      StageOnward(s, s', s'.run.value.kind, s'.run.value.stage);
    }
    LeftoversOnward(s, s', s.leftovers);
  }

  lemma EndChunkKeepsRunCore(s: System.State, run: Run)
    requires s.run == Some(run) && run.stage.Checking? && StepEndChunk(s, run).Some? && StageCore(s, run.kind, run.stage)
    ensures RunCore(s, StepEndChunk(s, run).value.run)
  {
    EndChunkFrame(s, run);
    if run.kind.PeriodicCheck? {
      PrefixExtends(s.history, run.stage.accounts, run.stage.next, run.stage.end, run.stage.workers);
    }
  }

  lemma RetryKeepsRunCore(s: System.State, run: Run, event: Event)
    requires IsRetryEvent(event) && s.run == Some(run) && StepRetry(s, run, event).Some? && StageCore(s, run.kind, run.stage)
    ensures var s' := StepRetry(s, run, event).value; RunCore(s', s'.run)
  {
  }

  lemma RetryKeepsCore(s: System.State, event: Event)
    requires IsRetryEvent(event) && Core(s) && Step(s, event).Some?
    ensures Core(Step(s, event).value)
  {
    var s' := Step(s, event).value;
    RetryFrame(s, event);
    RetryKeepsRunCore(s, s.run.value, event);
    RetrySettlesOnly(s, event);
    AcctsOnward(s, s');
    CoreOnward(s, s');
  }

  lemma RetrySettlesOnly(s: System.State, event: Event)
    requires IsRetryEvent(event) && Step(s, event).Some?
    ensures var s' := Step(s, event).value;
            && s.history.settled <= s'.history.settled
            && forall id :: Settles(s'.redis, id) ==> Settles(s.redis, id) || id in s'.history.settled
  {
    RetryFrame(s, event);
    if event.MarkWrite? {
      var gone := s.run.value.stage.gone;
      var r' := Step(s, event).value.redis;
      forall id | id != gone ensures Settles(r', id) <==> Settles(s.redis, id) {
      }
    } else {
      RetryKeepsRedis(s, s.run.value, event);
    }
  }

  lemma PeriodicKeepsRunCore(s: System.State, run: Run, event: Event)
    requires IsPeriodicEvent(event) && s.run == Some(run) && StepPeriodic(s, run, event).Some? && StageCore(s, run.kind, run.stage)
    requires !event.FetchNew? && !event.FetchRange?
    ensures var s' := StepPeriodic(s, run, event).value; RunCore(s', s'.run)
  {
  }

  lemma FetchKeepsRunCore(s: System.State, run: Run, event: Event)
    requires event.FetchNew? || event.FetchRange?
    requires s.run == Some(run) && StepPeriodic(s, run, event).Some? && StageCore(s, run.kind, run.stage)
    ensures var s' := StepPeriodic(s, run, event).value; RunCore(s', s'.run)
  {
  }

  lemma MigrateApplyKeepsCore(s: System.State, id: AccountId)
    requires Core(s) && Step(s, MigrateApply(id)).Some?
    ensures Core(Step(s, MigrateApply(id)).value)
  {
    var s' := Step(s, MigrateApply(id)).value;
    PeriodicFrame(s, MigrateApply(id));
    PeriodicKeepsRunCore(s, s.run.value, MigrateApply(id));
    forall x ensures Settles(s'.redis, x) ==> Settles(s.redis, x) {
    }
    AcctsOnward(s, s');
    CoreOnward(s, s');
  }

  lemma SaveCursorKeepsCore(s: System.State)
    requires Core(s) && Step(s, SaveCursor).Some?
    ensures Core(Step(s, SaveCursor).value)
  {
    var stage := s.run.value.stage;
    var s' := Step(s, SaveCursor).value;
    var upto := stage.upto;
    forall x | x in s'.listed && s'.history.base.value <= x <= s'.redis.cursor.value
      ensures SettledOrSystem(s'.history, s'.listed[x])
    {
      if stage.cursor.None? || stage.cursor.value < x {
        PrefixCovers(s, stage.cursor, stage.accounts, upto, x);
      }
    }
    forall id ensures AcctCore(s'.redis, s'.now, s'.history, id) {
      assert AcctCore(s.redis, s.now, s.history, id);
    }
  }

  lemma PeriodicKeepsCore(s: System.State, event: Event)
    requires IsPeriodicEvent(event) && Core(s) && Step(s, event).Some?
    ensures Core(Step(s, event).value)
  {
    if event.SaveCursor? {
      SaveCursorKeepsCore(s);
    } else if event.MigrateApply? {
      MigrateApplyKeepsCore(s, event.id);
    } else {
      PeriodicFrame(s, event);
      PeriodicKeepsRedis(s, s.run.value, event);
      if event.FetchNew? || event.FetchRange? {
        FetchKeepsRunCore(s, s.run.value, event);
      } else {
        PeriodicKeepsRunCore(s, s.run.value, event);
      }
      AcctsOnward(s, Step(s, event).value);
      CoreOnward(s, Step(s, event).value);
    }
  }

  // ---------------------------------------------------------------------------------------------
  // Environment and clicks

  lemma EnvironmentKeepsCore(s: System.State, event: Event)
    requires IsEnvironmentEvent(event) && Core(s) && Step(s, event).Some?
    ensures Core(Step(s, event).value)
  {
    var s' := Step(s, event).value;
    EnvironmentFrame(s, event);
    forall id ensures AcctCore(s'.redis, s'.now, s'.history, id) {
      assert AcctCore(s.redis, s.now, s.history, id);
    }
    if event.Arrive? {
      ArriveKeepsRunCore(s, event.account);
    }
    LeftoversOnward(s, s', s.leftovers);
  }

  lemma ArriveKeepsRunCore(s: System.State, account: Account)
    requires RunCore(s, s.run) && forall x :: x in s.listed ==> x < account.id
    ensures RunCore(s.(listed := s.listed[account.id := account]), s.run)
  {
    if s.run.Some? {
      var stage := s.run.value.stage;
      if (stage.Checking? && s.run.value.kind.PeriodicCheck?) || stage.SavingCursor? {
        ArriveKeepsList(s, account, stage.cursor, stage.accounts);
      }
    }
  }

  lemma HandleKeepsCore(s: System.State, task: nat, input: Server.TaskInput)
    requires Core(s) && Step(s, Handle(task, input)).Some?
    ensures Core(Step(s, Handle(task, input)).value)
  {
    var s' := Step(s, Handle(task, input)).value;
    assert TaskStepped(s, task, input, s');
    TaskKeepsServer(s, task, input, s');
    ServerFrame(s, Handle(task, input));
    forall id ensures AcctCore(s'.redis, s'.now, s'.history, id) {
      assert AcctCore(s.redis, s.now, s.history, id);
    }
    LeftoversOnward(s, s', s.leftovers);
    if s.run.Some? {
      StageOnward(s, s', s.run.value.kind, s.run.value.stage);
    }
  }

  lemma ServerKeepsCore(s: System.State, event: Event)
    requires IsServerEvent(event) && Core(s) && Step(s, event).Some?
    ensures Core(Step(s, event).value)
  {
    if event.Handle? {
      HandleKeepsCore(s, event.task, event.action);
    } else {
      var s' := Step(s, event).value;
      ServerFrame(s, event);
      ClicksKeepServer(s, event);
      AcctsOnward(s, s');
      LeftoversOnward(s, s', s.leftovers);
      if s.run.Some? {
        StageOnward(s, s', s.run.value.kind, s.run.value.stage);
      }
    }
  }

  // ---------------------------------------------------------------------------------------------
  // Every event and every history

  lemma StepKeepsCore(s: System.State, event: Event)
    requires Core(s) && Step(s, event).Some?
    ensures Core(Step(s, event).value)
  {
    if IsEnvironmentEvent(event) {
      EnvironmentKeepsCore(s, event);
    } else if IsServerEvent(event) {
      ServerKeepsCore(s, event);
    } else if IsLeftoverEvent(event) {
      LeftoverKeepsCore(s, event);
    } else if IsRetryEvent(event) {
      RetryKeepsCore(s, event);
    } else if IsPeriodicEvent(event) {
      PeriodicKeepsCore(s, event);
    } else {
      match event {
        case StartChunk => StartChunkKeepsCore(s);
        case Check(id, input) => CheckKeepsCore(s, id, input);
        case EndChunk => EndChunkKeepsCore(s);
      }
    }
  }

  /** The empty service, with or without the licence to linger. */
  function Origin(maxReply: nat, mayLinger: bool): System.State {
    Initial(maxReply).(mayLinger := mayLinger)
  }

  lemma {:induction false} HistoryKeepsCore(events: seq<Event>, maxReply: nat, mayLinger: bool)
    requires Play(Origin(maxReply, mayLinger), events).Some?
    ensures Core(Play(Origin(maxReply, mayLinger), events).value)
    decreases |events|
  {
    if events != [] {
      var before := events[..|events| - 1];
      HistoryKeepsCore(before, maxReply, mayLinger);
      StepKeepsCore(Play(Origin(maxReply, mayLinger), before).value, events[|events| - 1]);
    }
  }

  // ---------------------------------------------------------------------------------------------
  // Theorems

  /** An unexpired claim and feedback never stand together, lingering checks or not. */
  lemma {:induction false} ClaimExcludesFeedbackAnyway(events: seq<Event>, maxReply: nat, mayLinger: bool, id: AccountId)
    requires Play(Origin(maxReply, mayLinger), events).Some?
    ensures var s := Play(Origin(maxReply, mayLinger), events).value; Claimed(s.redis, s.now, id) ==> id !in s.redis.feedback
  {
    HistoryKeepsCore(events, maxReply, mayLinger);
    var s := Play(Origin(maxReply, mayLinger), events).value;
    assert AcctCore(s.redis, s.now, s.history, id);
  }

  /** The cursor never decreases. */
  lemma {:induction false} CursorNeverMovesBackAnyway(events: seq<Event>, n: nat, maxReply: nat, mayLinger: bool)
    requires n <= |events| && Play(Origin(maxReply, mayLinger), events).Some? && Play(Origin(maxReply, mayLinger), events[..n]).Some?
    ensures var c := Play(Origin(maxReply, mayLinger), events[..n]).value.redis.cursor;
            var c' := Play(Origin(maxReply, mayLinger), events).value.redis.cursor;
            c.Some? ==> c'.Some? && c.value <= c'.value
    decreases |events|
  {
    if n == |events| {
      assert events[..n] == events;
    } else {
      var before := events[..|events| - 1];
      assert before[..n] == events[..n];
      CursorNeverMovesBackAnyway(before, n, maxReply, mayLinger);
      StepMovesCursorForward(Play(Origin(maxReply, mayLinger), before).value, events[|events| - 1]);
    }
  }

  /** While a suspend or delete request is issued or under way, the last press recorded did not clear the account. */
  lemma {:induction false} NoDestructiveCallAnyway(events: seq<Event>, maxReply: nat, mayLinger: bool, task: nat)
    requires Play(Origin(maxReply, mayLinger), events).Some?
    ensures var s := Play(Origin(maxReply, mayLinger), events).value;
            task in s.tasks && (s.tasks[task].phase.Issuing? || s.tasks[task].phase.Calling?) ==>
              && FeedbackStatus(s.redis, s.tasks[task].id) != Some(FalsePositive)
              && !LastPressed(Origin(maxReply, mayLinger), events, s.tasks[task].id, Server.MarkFalsePositive)
  {
    HistoryKeepsCore(events, maxReply, mayLinger);
    var s := Play(Origin(maxReply, mayLinger), events).value;
    if task in s.tasks {
      FeedbackIsTheLastPress(Origin(maxReply, mayLinger), events, s.tasks[task].id);
    }
  }

  ghost predicate SettledOnce(origin: System.State, events: seq<Event>, id: AccountId) {
    exists n :: 0 <= n <= |events| && SettledAt(Play(origin, events[..n]), id)
  }

  ghost predicate SavedFirst(origin: System.State, events: seq<Event>, n: int, first: AccountId) {
    0 <= n < |events| && events[n].SaveCursor? && FirstSaveAt(Play(origin, events[..n]), first)
  }

  lemma LongerPlay(origin: System.State, events: seq<Event>)
    requires events != []
    ensures var before := events[..|events| - 1];
            && (forall id :: SettledOnce(origin, before, id) ==> SettledOnce(origin, events, id))
            && (forall n, first :: SavedFirst(origin, before, n, first) ==> SavedFirst(origin, events, n, first))
  {
    var before := events[..|events| - 1];
    assert forall n :: 0 <= n <= |before| ==> before[..n] == events[..n];
    assert forall n :: 0 <= n < |before| ==> before[n] == events[n];
    forall id | SettledOnce(origin, before, id) ensures SettledOnce(origin, events, id) {
      var n :| 0 <= n <= |before| && SettledAt(Play(origin, before[..n]), id);
      assert SettledAt(Play(origin, events[..n]), id);
    }
  }

  /** How one event extends what is settled, and the first account. */
  lemma StepSettles(s: System.State, event: Event)
    requires Step(s, event).Some?
    ensures var s' := Step(s, event).value;
            && (forall id :: id in s'.history.settled && id !in s.history.settled ==> Settles(s'.redis, id))
            && (s'.history.base != s.history.base ==>
                  event.SaveCursor? && s'.history.base.Some? && FirstSaveAt(Some(s), s'.history.base.value))
  {
    if event.LeftoverCheck? {
      LeftoverCheckSettles(s, event.slot, event.id, event.input);
    } else if IsLeftoverEvent(event) {
      LeftoverFrame(s, event);
    } else {
      StepRemembers(s, event);
    }
  }

  lemma LeftoverCheckSettles(s: System.State, slot: nat, id: AccountId, input: W.Input)
    requires StepLeftoverCheck(s, slot, id, input).Some?
    ensures var s' := StepLeftoverCheck(s, slot, id, input).value;
            && (forall x :: x in s'.history.settled && x !in s.history.settled ==> Settles(s'.redis, x))
            && s'.history.base == s.history.base
  {
  }

  lemma {:induction false} SettledIsTrue(events: seq<Event>, origin: System.State)
    requires origin.history == NOTHING && Play(origin, events).Some?
    ensures var h := Play(origin, events).value.history;
            && (forall id :: id in h.settled ==> SettledOnce(origin, events, id))
            && (h.base.Some? ==> exists n :: SavedFirst(origin, events, n, h.base.value))
    decreases |events|
  {
    if events != [] {
      var before, last := events[..|events| - 1], |events| - 1;
      SettledIsTrue(before, origin);
      LongerPlay(origin, events);
      StepSettles(Play(origin, before).value, events[last]);
      assert events[..|events|] == events;
      var h, h' := Play(origin, before).value.history, Play(origin, events).value.history;
      forall id | id in h'.settled ensures SettledOnce(origin, events, id) {
        if id !in h.settled {
          assert SettledAt(Play(origin, events[..|events|]), id);
        }
      }
      if h'.base != h.base {
        assert SavedFirst(origin, events, last, h'.base.value);
      }
    }
  }

  ghost predicate CoveredOnce(origin: System.State, events: seq<Event>, s: System.State, first: AccountId) {
    s.redis.cursor.Some? &&
    forall x :: x in s.listed && first <= x <= s.redis.cursor.value ==>
      IsSystemAccount(s.listed[x]) || SettledOnce(origin, events, x)
  }

  /** No account is skipped, lingering checks or not, however late claim replies arrive. */
  lemma {:induction false} NoAccountIsSkippedAnyway(events: seq<Event>, maxReply: nat, mayLinger: bool)
    requires Play(Origin(maxReply, mayLinger), events).Some? && Play(Origin(maxReply, mayLinger), events).value.redis.cursor.Some?
    ensures var origin := Origin(maxReply, mayLinger);
            exists n, first :: SavedFirst(origin, events, n, first) && CoveredOnce(origin, events, Play(origin, events).value, first)
  {
    var origin := Origin(maxReply, mayLinger);
    HistoryKeepsCore(events, maxReply, mayLinger);
    SettledIsTrue(events, origin);
    var s := Play(origin, events).value;
    var first := s.history.base.value;
    var n :| SavedFirst(origin, events, n, first);
    forall x | x in s.listed && first <= x <= s.redis.cursor.value
      ensures IsSystemAccount(s.listed[x]) || SettledOnce(origin, events, x)
    {
      assert s.listed[x].id == x;
    }
    assert CoveredOnce(origin, events, s, first);
  }

  // ---------------------------------------------------------------------------------------------
  // The claim under left-over checks

  const CLAIM: nat := NOTIFICATION_CLAIM_SECS * 1_000

  predicate Holds(phase: W.Phase) {
    phase.HoldsClaim? || phase.Sending? || phase.ReleasingClaim?
  }

  /** The claim key is the one made with the token, at the time its expiry tells. */
  predicate OwnClaim(claims: map<AccountId, Claim>, now: nat, id: AccountId, token: ClaimToken) {
    && id in claims && claims[id].token == token && claims[id].expiry >= CLAIM
    && token.second == Seconds(claims[id].expiry - CLAIM) && claims[id].expiry - CLAIM <= now
  }

  /** A claim made with the token has expired and been replaced, and none like it can come. */
  predicate Stale(claims: map<AccountId, Claim>, now: nat, id: AccountId, token: ClaimToken) {
    token.second < Seconds(now) && (id in claims ==> token.second < claims[id].token.second)
  }

  /** What a check that holds a claim, or is about to release one, knows of the key. */
  predicate HolderInv(claims: map<AccountId, Claim>, now: nat, id: AccountId, phase: W.Phase) {
    match phase
    case HoldsClaim(_, token, claimedAt) =>
      OwnClaim(claims, now, id, token) && claims[id].expiry == claimedAt + CLAIM && now <= claimedAt + CLAIM_REPLY_MAX
    case Sending(_, token, claimedAt, since) =>
      && OwnClaim(claims, now, id, token) && claims[id].expiry == claimedAt + CLAIM
      && since <= claimedAt + CLAIM_REPLY_MAX && now <= since + Http.DELIVERY_MAX
    case ReleasingClaim(_, token, _) => OwnClaim(claims, now, id, token) || Stale(claims, now, id, token)
    case other => true
  }

  predicate IsMine(claims: map<AccountId, Claim>, id: AccountId, phase: W.Phase) {
    Holds(phase) && id in claims && claims[id].token == phase.token
  }

  predicate BothMine(claims: map<AccountId, Claim>, id: AccountId, a: W.Phase, b: W.Phase) {
    IsMine(claims, id, a) && IsMine(claims, id, b)
  }

  // ---------------------------------------------------------------------------------------------
  // One step of one check

  lemma OwnStepHolds(r: Redis.State, now: nat, kind: W.RunKind, process: nat, account: Account, phase: W.Phase, input: W.Input)
    requires HolderInv(r.claims, now, account.id, phase)
    requires W.Step(r, now, kind, process, account, phase, input).Some?
    ensures var (r', after) := W.Step(r, now, kind, process, account, phase, input).value;
            HolderInv(r'.claims, now, account.id, after)
  {
  }

  /** Only a claim and a release touch the key, and a holder moves on with its own token. */
  lemma OtherStepsKeepClaims(r: Redis.State, now: nat, kind: W.RunKind, process: nat, account: Account, phase: W.Phase, input: W.Input)
    requires W.Step(r, now, kind, process, account, phase, input).Some? && !phase.Claiming? && !phase.ReleasingClaim?
    ensures var (r', after) := W.Step(r, now, kind, process, account, phase, input).value;
            r'.claims == r.claims && (Holds(after) ==> Holds(phase) && after.token == phase.token)
  {
  }

  lemma ClaimLeavesOther(r: Redis.State, now: nat, id: AccountId, token: ClaimToken, other: W.Phase)
    requires HolderInv(r.claims, now, id, other) && token.second == Seconds(now)
    ensures var (r', granted) := ClaimNotification(r, now, id, token);
            HolderInv(r'.claims, now, id, other) && (granted ==> !IsMine(r'.claims, id, other))
  {
  }

  lemma ReleaseLeavesOther(r: Redis.State, now: nat, id: AccountId, phase: W.Phase, other: W.Phase)
    requires phase.ReleasingClaim? && HolderInv(r.claims, now, id, phase) && HolderInv(r.claims, now, id, other)
    requires !BothMine(r.claims, id, phase, other)
    ensures HolderInv(ReleaseClaim(r, now, id, phase.token).claims, now, id, other)
  {
  }

  /** Another check of the same account keeps what it knows, and the key has one owner. */
  lemma StepLeavesOther(r: Redis.State, now: nat, kind: W.RunKind, process: nat, account: Account, phase: W.Phase, input: W.Input, other: W.Phase)
    requires HolderInv(r.claims, now, account.id, phase) && HolderInv(r.claims, now, account.id, other)
    requires !BothMine(r.claims, account.id, phase, other)
    requires W.Step(r, now, kind, process, account, phase, input).Some?
    ensures var (r', after) := W.Step(r, now, kind, process, account, phase, input).value;
            HolderInv(r'.claims, now, account.id, other) && !BothMine(r'.claims, account.id, after, other)
  {
    var id := account.id;
    if phase.Claiming? {
      ClaimLeavesOther(r, now, id, ClaimToken(process, Seconds(now)), other);
    } else if phase.ReleasingClaim? {
      ReleaseLeavesOther(r, now, id, phase, other);
    } else {
      OtherStepsKeepClaims(r, now, kind, process, account, phase, input);
    }
  }

  // ---------------------------------------------------------------------------------------------
  // The service

  /** The phase of the account's check in the run under way, or in a leftover. */
  function PhaseAt(s: System.State, slot: Option<nat>, id: AccountId): Option<W.Phase> {
    if slot.None? then PhaseOf(s, id)
    else if slot.value in s.leftovers && s.leftovers[slot.value].stage.Checking? && id in s.leftovers[slot.value].stage.workers
    then Some(s.leftovers[slot.value].stage.workers[id]) else None
  }

  ghost predicate EachHolds(s: System.State) {
    forall slot, id :: PhaseAt(s, slot, id).Some? ==> HolderInv(s.redis.claims, s.now, id, PhaseAt(s, slot, id).value)
  }

  ghost predicate OneOwner(s: System.State) {
    forall a, b, id :: a != b && PhaseAt(s, a, id).Some? && PhaseAt(s, b, id).Some? ==>
      !BothMine(s.redis.claims, id, PhaseAt(s, a, id).value, PhaseAt(s, b, id).value)
  }

  ghost predicate Holders(s: System.State) {
    Core(s) && s.maxReply <= CLAIM_REPLY_MAX && EachHolds(s) && OneOwner(s)
  }

  /** Checks stay where they are, end, or start. */
  ghost predicate OnlyStartsAndEnds(s: System.State, s': System.State) {
    forall slot, id :: PhaseAt(s', slot, id).Some? ==>
      PhaseAt(s', slot, id) == PhaseAt(s, slot, id) || !Holds(PhaseAt(s', slot, id).value)
  }

  lemma HoldersStay(s: System.State, s': System.State)
    requires Holders(s) && OnlyStartsAndEnds(s, s') && s'.redis.claims == s.redis.claims && s'.now == s.now
    ensures EachHolds(s') && OneOwner(s')
  {
    forall slot, id | PhaseAt(s', slot, id).Some? ensures HolderInv(s'.redis.claims, s'.now, id, PhaseAt(s', slot, id).value) {
      if Holds(PhaseAt(s', slot, id).value) {
        assert HolderInv(s.redis.claims, s.now, id, PhaseAt(s, slot, id).value);
      }
    }
    forall a, b, id | a != b && PhaseAt(s', a, id).Some? && PhaseAt(s', b, id).Some?
      ensures !BothMine(s'.redis.claims, id, PhaseAt(s', a, id).value, PhaseAt(s', b, id).value)
    {
      if PhaseAt(s', a, id) == PhaseAt(s, a, id) && PhaseAt(s', b, id) == PhaseAt(s, b, id) {
        assert !BothMine(s.redis.claims, id, PhaseAt(s, a, id).value, PhaseAt(s, b, id).value);
      }
    }
  }

  /** A step of the check at `slot`, as far as claims and checks go. */
  ghost predicate SlotStepped(s: System.State, s': System.State, slot: Option<nat>, kind: W.RunKind, process: nat, account: Account, phase: W.Phase, input: W.Input, after: W.Phase)
  {
    && W.Step(s.redis, s.now, kind, process, account, phase, input) == Some((s'.redis, after))
    && s'.now == s.now
    && PhaseAt(s, slot, account.id) == Some(phase) && PhaseAt(s', slot, account.id) == Some(after)
    && forall other, id :: other != slot || id != account.id ==> PhaseAt(s', other, id) == PhaseAt(s, other, id)
  }

  lemma SlotStepKeepsHolders(s: System.State, s': System.State, slot: Option<nat>, kind: W.RunKind, process: nat, account: Account, phase: W.Phase, input: W.Input, after: W.Phase)
    requires Holders(s) && SlotStepped(s, s', slot, kind, process, account, phase, input, after)
    ensures EachHolds(s') && OneOwner(s')
  {
    OwnStepHolds(s.redis, s.now, kind, process, account, phase, input);
    forall other, id | PhaseAt(s', other, id).Some?
      ensures HolderInv(s'.redis.claims, s'.now, id, PhaseAt(s', other, id).value)
    {
      if id != account.id {
        CheckTouchesOnlyItsAccount(s.redis, s.now, kind, process, account, phase, input, id);
        assert HolderInv(s.redis.claims, s.now, id, PhaseAt(s, other, id).value);
      } else if other != slot {
        StepLeavesOther(s.redis, s.now, kind, process, account, phase, input, PhaseAt(s, other, id).value);
      }
    }
    forall a, b, id | a != b && PhaseAt(s', a, id).Some? && PhaseAt(s', b, id).Some?
      ensures !BothMine(s'.redis.claims, id, PhaseAt(s', a, id).value, PhaseAt(s', b, id).value)
    {
      PairAfterStep(s, s', slot, kind, process, account, phase, input, after, a, b, id);
    }
  }

  lemma PairAfterStep(s: System.State, s': System.State, slot: Option<nat>, kind: W.RunKind, process: nat, account: Account, phase: W.Phase, input: W.Input, after: W.Phase,
                      a: Option<nat>, b: Option<nat>, id: AccountId)
    requires Holders(s) && SlotStepped(s, s', slot, kind, process, account, phase, input, after)
    requires a != b && PhaseAt(s', a, id).Some? && PhaseAt(s', b, id).Some?
    ensures !BothMine(s'.redis.claims, id, PhaseAt(s', a, id).value, PhaseAt(s', b, id).value)
  {
    assert PhaseAt(s, a, id).Some? && PhaseAt(s, b, id).Some?;
    assert !BothMine(s.redis.claims, id, PhaseAt(s, a, id).value, PhaseAt(s, b, id).value);
    if id != account.id {
      CheckTouchesOnlyItsAccount(s.redis, s.now, kind, process, account, phase, input, id);
    } else if a == slot {
      StepLeavesOther(s.redis, s.now, kind, process, account, phase, input, PhaseAt(s, b, id).value);
    } else if b == slot {
      StepLeavesOther(s.redis, s.now, kind, process, account, phase, input, PhaseAt(s, a, id).value);
    } else {
      StepAddsNoOwner(s, s', kind, process, account, phase, input, after, PhaseAt(s, a, id).value, PhaseAt(s, b, id).value);
    }
  }

  /** Two other checks of the account do not both come to own the key by a third one's step. */
  lemma StepAddsNoOwner(s: System.State, s': System.State, kind: W.RunKind, process: nat, account: Account, phase: W.Phase, input: W.Input, after: W.Phase,
                        x: W.Phase, y: W.Phase)
    requires W.Step(s.redis, s.now, kind, process, account, phase, input) == Some((s'.redis, after))
    requires HolderInv(s.redis.claims, s.now, account.id, x) && HolderInv(s.redis.claims, s.now, account.id, phase)
    requires !BothMine(s.redis.claims, account.id, x, y)
    ensures !BothMine(s'.redis.claims, account.id, x, y)
  {
    if phase.Claiming? {
      ClaimLeavesOther(s.redis, s.now, account.id, ClaimToken(process, Seconds(s.now)), x);
    } else if !phase.ReleasingClaim? {
      OtherStepsKeepClaims(s.redis, s.now, kind, process, account, phase, input);
    }
  }

  // ---------------------------------------------------------------------------------------------
  // Every event

  lemma HoldsLater(claims: map<AccountId, Claim>, now: nat, later: nat, maxReply: nat, id: AccountId, phase: W.Phase)
    requires HolderInv(claims, now, id, phase) && now <= later && MayWaitUntil(phase, later, maxReply) && maxReply <= CLAIM_REPLY_MAX
    ensures HolderInv(claims, later, id, phase)
  {
  }

  lemma TickKeepsHolders(s: System.State, elapsed: nat)
    requires Holders(s) && Step(s, Tick(elapsed)).Some?
    ensures var s' := Step(s, Tick(elapsed)).value; EachHolds(s') && OneOwner(s')
  {
    var s' := Step(s, Tick(elapsed)).value;
    forall slot, id | PhaseAt(s', slot, id).Some? ensures HolderInv(s'.redis.claims, s'.now, id, PhaseAt(s', slot, id).value) {
      var phase := PhaseAt(s, slot, id).value;
      assert HolderInv(s.redis.claims, s.now, id, phase);
      assert MayWaitUntil(phase, s'.now, s.maxReply);
      HoldsLater(s.redis.claims, s.now, s'.now, s.maxReply, id, phase);
    }
    forall a, b, id | a != b && PhaseAt(s', a, id).Some? && PhaseAt(s', b, id).Some?
      ensures !BothMine(s'.redis.claims, id, PhaseAt(s', a, id).value, PhaseAt(s', b, id).value)
    {
      assert PhaseAt(s, a, id).Some? && PhaseAt(s, b, id).Some?;
    }
  }

  lemma CheckKeepsHolders(s: System.State, id: AccountId, input: W.Input)
    requires Holders(s) && Step(s, Check(id, input)).Some?
    ensures var s' := Step(s, Check(id, input)).value; EachHolds(s') && OneOwner(s')
  {
    var s' := Step(s, Check(id, input)).value;
    StepIsCheckStepped(s, id, input);
    var run, stage := s.run.value, s.run.value.stage;
    SlotStepKeepsHolders(s, s', None, run.kind, run.process, FindAccount(stage.accounts, id).value, stage.workers[id], input,
                         s'.run.value.stage.workers[id]);
  }

  lemma LeftoverCheckKeepsHolders(s: System.State, slot: nat, id: AccountId, input: W.Input, s': System.State)
    requires Holders(s) && LeftoverStepped(s, slot, id, input, s')
    ensures EachHolds(s') && OneOwner(s')
  {
    var run, stage := s.leftovers[slot], s.leftovers[slot].stage;
    SlotStepKeepsHolders(s, s', Some(slot), run.kind, run.process, FindAccount(stage.accounts, id).value, stage.workers[id], input,
                         s'.leftovers[slot].stage.workers[id]);
  }

  /** The checks of a run that loses its lease move to a slot of their own. */
  lemma LoseLeaseKeepsHolders(s: System.State, slot: nat)
    requires Holders(s) && Step(s, LoseLease(slot)).Some?
    ensures var s' := Step(s, LoseLease(slot)).value; EachHolds(s') && OneOwner(s')
  {
    var s' := Step(s, LoseLease(slot)).value;
    forall at, id | PhaseAt(s', at, id).Some?
      ensures PhaseAt(s, if at == Some(slot) then None else at, id) == PhaseAt(s', at, id)
    {
    }
    forall at, id | PhaseAt(s', at, id).Some? ensures HolderInv(s'.redis.claims, s'.now, id, PhaseAt(s', at, id).value) {
      assert HolderInv(s.redis.claims, s.now, id, PhaseAt(s, if at == Some(slot) then None else at, id).value);
    }
    forall a, b, id | a != b && PhaseAt(s', a, id).Some? && PhaseAt(s', b, id).Some?
      ensures !BothMine(s'.redis.claims, id, PhaseAt(s', a, id).value, PhaseAt(s', b, id).value)
    {
      var a0, b0 := if a == Some(slot) then None else a, if b == Some(slot) then None else b;
      assert a0 != b0;
      assert !BothMine(s.redis.claims, id, PhaseAt(s, a0, id).value, PhaseAt(s, b0, id).value);
    }
  }

  lemma QuietEventKeepsHolders(s: System.State, event: Event)
    requires Holders(s) && Step(s, event).Some?
    requires !event.Tick? && !event.Check? && !event.LeftoverCheck? && !event.LoseLease?
    ensures var s' := Step(s, event).value; EachHolds(s') && OneOwner(s')
  {
    QuietEventStartsAndEnds(s, event);
    HoldersStay(s, Step(s, event).value);
  }

  lemma QuietEventStartsAndEnds(s: System.State, event: Event)
    requires Step(s, event).Some?
    requires !event.Tick? && !event.Check? && !event.LeftoverCheck? && !event.LoseLease?
    ensures var s' := Step(s, event).value;
            OnlyStartsAndEnds(s, s') && s'.redis.claims == s.redis.claims && s'.now == s.now
  {
    if IsRetryEvent(event) {
      RetryFrame(s, event);
    } else if IsPeriodicEvent(event) {
      PeriodicFrame(s, event);
    } else if IsServerEvent(event) {
      ServerFrame(s, event);
    } else if IsEnvironmentEvent(event) {
      EnvironmentFrame(s, event);
    } else if event.EndChunk? {
      EndChunkFrame(s, s.run.value);
    }
  }

  lemma ReplyBoundStays(s: System.State, event: Event)
    requires Step(s, event).Some?
    ensures Step(s, event).value.maxReply == s.maxReply
  {
    if IsRetryEvent(event) {
      RetryFrame(s, event);
    } else if IsPeriodicEvent(event) {
      PeriodicFrame(s, event);
    } else if IsServerEvent(event) {
      ServerFrame(s, event);
    } else if IsEnvironmentEvent(event) {
      EnvironmentFrame(s, event);
    } else if IsLeftoverEvent(event) {
      LeftoverFrame(s, event);
    } else if event.Check? {
      StepIsCheckStepped(s, event.id, event.input);
    } else {
      ChunkFrame(s, event);
    }
  }

  lemma StepKeepsHolders(s: System.State, event: Event)
    requires Holders(s) && Step(s, event).Some?
    ensures Holders(Step(s, event).value)
  {
    StepKeepsCore(s, event);
    ReplyBoundStays(s, event);
    match event {
      case Tick(elapsed) => TickKeepsHolders(s, elapsed);
      case Check(id, input) => CheckKeepsHolders(s, id, input);
      case LeftoverCheck(slot, id, input) =>
        StepIsLeftoverStepped(s, slot, id, input);
        LeftoverCheckKeepsHolders(s, slot, id, input, Step(s, event).value);
      case LoseLease(slot) => LoseLeaseKeepsHolders(s, slot);
      case other => QuietEventKeepsHolders(s, event);
    }
  }

  lemma {:induction false} HistoryKeepsHolders(events: seq<Event>, maxReply: nat, mayLinger: bool)
    requires maxReply <= CLAIM_REPLY_MAX && Play(Origin(maxReply, mayLinger), events).Some?
    ensures Holders(Play(Origin(maxReply, mayLinger), events).value)
    decreases |events|
  {
    if events == [] {
      HistoryKeepsCore([], maxReply, mayLinger);
    } else {
      var before := events[..|events| - 1];
      HistoryKeepsHolders(before, maxReply, mayLinger);
      StepKeepsHolders(Play(Origin(maxReply, mayLinger), before).value, events[|events| - 1]);
    }
  }

  // ---------------------------------------------------------------------------------------------
  // Theorems

  /**
   Over every history, lingering checks or not, with claim replies in under 390 s: while a delivery is
   under way in the run or in a leftover its claim is unexpired and no feedback exists, and no other
   check of the account delivers.
   */
  lemma {:induction false} DeliveriesExcludeAnyway(events: seq<Event>, maxReply: nat, mayLinger: bool, slot: Option<nat>, id: AccountId)
    requires maxReply <= CLAIM_REPLY_MAX && Play(Origin(maxReply, mayLinger), events).Some?
    requires Delivering(PhaseAt(Play(Origin(maxReply, mayLinger), events).value, slot, id))
    ensures var s := Play(Origin(maxReply, mayLinger), events).value;
            && Claimed(s.redis, s.now, id) && id !in s.redis.feedback
            && forall other :: Delivering(PhaseAt(s, other, id)) ==> other == slot
  {
    HistoryKeepsHolders(events, maxReply, mayLinger);
    var s := Play(Origin(maxReply, mayLinger), events).value;
    assert HolderInv(s.redis.claims, s.now, id, PhaseAt(s, slot, id).value);
    assert AcctCore(s.redis, s.now, s.history, id);
    forall other | Delivering(PhaseAt(s, other, id)) ensures other == slot {
      assert HolderInv(s.redis.claims, s.now, id, PhaseAt(s, other, id).value);
      if other != slot {
        OwnersDiffer(s, slot, other, id);
      }
    }
  }

  lemma OwnersDiffer(s: System.State, a: Option<nat>, b: Option<nat>, id: AccountId)
    requires OneOwner(s) && a != b && PhaseAt(s, a, id).Some? && PhaseAt(s, b, id).Some?
    ensures !BothMine(s.redis.claims, id, PhaseAt(s, a, id).value, PhaseAt(s, b, id).value)
  {
  }
}
