/**
 Every event of a leased run, of its concurrent checks and of the Slack server keeps the invariant of
 the whole service, and so does every history of events from the empty store.
 */
module SystemSteps {
  import opened Wrappers
  import opened Accounts
  import opened Redis
  import opened System
  import opened AccountInvariants
  import opened SystemInvariants
  import W = Worker
  import Server

  // ---------------------------------------------------------------------------------------------
  // Framing

  /** What no ordinary event changes. */
  predicate SameWorld(s: System.State, s': System.State) {
    s'.maxReply == s.maxReply && s'.mayLinger == s.mayLinger && s'.leftovers == s.leftovers
  }

  /** Redis and the history changed at one account. */
  ghost predicate ChangedAt(s: System.State, s': System.State, id: AccountId) {
    && s'.now == s.now && s'.listed == s.listed && SameWorld(s, s')
    && s'.redis.cursor == s.redis.cursor && s'.history.base == s.history.base
    && Grows(s.history, s'.history)
    && forall other :: other != id ==> SameAt(s.redis, s'.redis, other)
  }

  lemma AcctsAfterChange(s: System.State, s': System.State, id: AccountId)
    requires AcctsInv(s) && ChangedAt(s, s', id)
    requires AcctInv(s'.redis, s'.now, s'.history, id)
    ensures AcctsInv(s')
  {
    forall other ensures AcctInv(s'.redis, s'.now, s'.history, other) {
      if other != id {
        AcctFrame(s.redis, s'.redis, s.now, s.history, s'.history, other);
      }
    }
  }

  lemma CursorAfterChange(s: System.State, s': System.State, id: AccountId)
    requires CursorInv(s) && ChangedAt(s, s', id)
    ensures CursorInv(s')
  {
  }

  lemma ListAfterChange(s: System.State, s': System.State, id: AccountId, cursor: Option<AccountId>, accounts: seq<Account>, n: nat)
    requires ListInv(s, cursor, accounts) && PrefixSettled(s.history, accounts, n) && ChangedAt(s, s', id)
    ensures ListInv(s', cursor, accounts) && PrefixSettled(s'.history, accounts, n)
  {
  }

  /** A run's write to one account keeps what does not concern the run. */
  lemma SharedAfterRunWrite(s: System.State, s': System.State, id: AccountId)
    requires SharedInv(s) && ChangedAt(s, s', id)
    requires s'.redis.feedback == s.redis.feedback && s'.tasks == s.tasks && s'.inFlight == s.inFlight
    requires AcctInv(s'.redis, s'.now, s'.history, id)
    ensures SharedInv(s')
  {
    AcctsAfterChange(s, s', id);
    CursorAfterChange(s, s', id);
  }

  /** A run that only moves on keeps what does not concern it. */
  lemma SharedInAnyStage(s: System.State, run: Option<Run>)
    requires SharedInv(s)
    ensures SharedInv(s.(run := run))
  {
  }

  /** A run may stand at any stage whose invariant holds. */
  lemma InvAtStage(s: System.State, run: Option<Run>)
    requires SharedInv(s) && (run.Some? ==> StageInv(s, run.value.kind, run.value.stage))
    ensures Inv(s.(run := run))
  {
    SharedInAnyStage(s, run);
    if run.Some? {
      StageIgnoresRun(s, s.(run := run), run.value.kind, run.value.stage);
    }
  }

  lemma StageIgnoresRun(s: System.State, s': System.State, kind: W.RunKind, stage: Stage)
    requires StageInv(s, kind, stage) && s'.redis == s.redis && s'.now == s.now && s'.listed == s.listed && s'.history == s.history
    ensures StageInv(s', kind, stage)
  {
  }

  lemma OthersNotCompleted(s: System.State, s': System.State, id: AccountId, ids: seq<AccountId>)
    requires AllNotCompleted(s, ids) && ChangedAt(s, s', id) && id !in ids
    ensures AllNotCompleted(s', ids)
  {
    forall i | 0 <= i < |ids| ensures NotCompleted(s'.redis, s'.now, ids[i]) {
      assert NotCompleted(s.redis, s.now, ids[i]) && SameAt(s.redis, s'.redis, ids[i]);
    }
  }

  // ---------------------------------------------------------------------------------------------
  // Retention migration

  /** What a retention pass has decided still fits the records it is about. */
  lemma DecisionsStay(r: Redis.State, now: nat, id: AccountId, startSecs: nat, decided: map<AccountId, Option<nat>>)
    requires id in decided && DecisionsFit(r, now, startSecs, decided)
    ensures DecisionsFit(ApplyTtl(r, now, id, decided[id]), now, startSecs, decided)
  {
    var r' := ApplyTtl(r, now, id, decided[id]);
    forall other | other in decided && GetJob(r', now, other).Some?
      ensures decided[other] == RemainingJobTtl(GetJob(r', now, other).value, startSecs)
    {
      assert GetJob(r, now, other) == GetJob(r', now, other);
    }
  }

  lemma MigrateApplyKeepsShared(s: System.State, id: AccountId, startSecs: nat, decided: map<AccountId, Option<nat>>)
    requires SharedInv(s) && id in decided && startSecs * 1_000 <= s.now && DecisionsFit(s.redis, s.now, startSecs, decided)
    ensures SharedInv(Noted(s, id, ApplyTtl(s.redis, s.now, id, decided[id])))
  {
    assert AcctInv(s.redis, s.now, s.history, id);
    MigrationKeepsAcct(s.redis, s.now, s.history, id, startSecs, decided[id]);
    SharedAfterRunWrite(s, Noted(s, id, ApplyTtl(s.redis, s.now, id, decided[id])), id);
  }

  lemma MigrateApplyKeepsInv(s: System.State, id: AccountId)
    requires Inv(s) && Step(s, MigrateApply(id)).Some?
    ensures Inv(Step(s, MigrateApply(id)).value)
  {
    var startSecs, decided := s.run.value.stage.startSecs, s.run.value.stage.decided;
    MigrateApplyKeepsShared(s, id, startSecs, decided);
    DecisionsStay(s.redis, s.now, id, startSecs, decided);
  }

  lemma MigrateReadKeepsInv(s: System.State, id: AccountId)
    requires Inv(s) && Step(s, MigrateRead(id)).Some?
    ensures Inv(Step(s, MigrateRead(id)).value)
  {
    SharedInAnyStage(s, Step(s, MigrateRead(id)).value.run);
  }

  // ---------------------------------------------------------------------------------------------
  // The retry queue walk

  lemma RemovalKeepsInv(s: System.State)
    requires Inv(s) && Step(s, WalkRemove).Some?
    ensures Inv(Step(s, WalkRemove).value)
  {
    var stage := s.run.value.stage;
    var s' := Step(s, WalkRemove).value;
    assert AcctInv(s.redis, s.now, s.history, stage.dead);
    RemovalKeepsAcct(s.redis, s.now, s.history, stage.dead);
    SharedAfterRunWrite(s, s', stage.dead);
    forall i | 0 <= i < |stage.live| ensures NotCompleted(s'.redis, s'.now, stage.live[i]) {
      assert NotCompleted(s.redis, s.now, stage.live[i]);
    }
  }

  lemma WalkRecordKeepsInv(s: System.State)
    requires Inv(s) && Step(s, WalkRecord).Some?
    ensures Inv(Step(s, WalkRecord).value)
  {
    var id, live := s.run.value.stage.id, s.run.value.stage.live;
    SharedInAnyStage(s, Step(s, WalkRecord).value.run);
    assert AcctInv(s.redis, s.now, s.history, id);
    if !s.run.value.stage.resolved && NotCompleted(s.redis, s.now, id) {
      assert AllNotCompleted(s, live + [id]) && Distinct(live + [id]);
    }
  }

  lemma WalkFeedbackKeepsInv(s: System.State, id: AccountId)
    requires Inv(s) && Step(s, WalkFeedback(id)).Some?
    ensures Inv(Step(s, WalkFeedback(id)).value)
  {
    SharedInAnyStage(s, Step(s, WalkFeedback(id)).value.run);
  }

  lemma MarkReadKeepsInv(s: System.State)
    requires Inv(s) && Step(s, MarkRead).Some?
    ensures Inv(Step(s, MarkRead).value)
  {
    var gone := s.run.value.stage.gone;
    assert AcctInv(s.redis, s.now, s.history, gone);
    SharedInAnyStage(s, Step(s, MarkRead).value.run);
  }

  lemma TailOfDistinct(s: System.State, head: AccountId, todo: seq<AccountId>)
    requires AllNotCompleted(s, [head] + todo) && Distinct([head] + todo)
    ensures AllNotCompleted(s, todo) && Distinct(todo) && head !in todo
  {
    var all := [head] + todo;
    assert forall i :: 0 <= i < |todo| ==> todo[i] == all[i + 1] && all[i + 1] != all[0];
  }

  lemma MarkWriteKeepsAcct(s: System.State)
    requires AcctsInv(s) && s.run.Some? && s.run.value.stage.MarkWriting? && StageInv(s, s.run.value.kind, s.run.value.stage)
    ensures var s' := Step(s, MarkWrite).value;
            AcctInv(s'.redis, s'.now, s'.history, s.run.value.stage.gone) && ChangedAt(s, s', s.run.value.stage.gone)
  {
    var stage := s.run.value.stage;
    var s' := Step(s, MarkWrite).value;
    assert AcctInv(s.redis, s.now, s.history, stage.gone);
    if stage.job.Some? {
      UnavailableKeepsAcct(s.redis, s.now, s.history, stage.gone, stage.job.value);
    } else {
      RemovalKeepsAcct(s.redis, s.now, s.history, stage.gone);
      AcctFrame(s'.redis, s'.redis, s.now, s.history, s'.history, stage.gone);
    }
  }

  lemma MarkWriteKeepsInv(s: System.State)
    requires Inv(s) && Step(s, MarkWrite).Some?
    ensures Inv(Step(s, MarkWrite).value)
  {
    var stage := s.run.value.stage;
    var s' := Step(s, MarkWrite).value;
    MarkWriteKeepsAcct(s);
    SharedAfterRunWrite(s, s', stage.gone);
    TailOfDistinct(s, stage.gone, stage.todo);
    OthersNotCompleted(s, s', stage.gone, stage.todo);
  }

  lemma FetchQueuedKeepsInv(s: System.State, found: Option<Account>)
    requires Inv(s) && Step(s, FetchQueued(found)).Some?
    ensures Inv(Step(s, FetchQueued(found)).value)
  {
    var todo := s.run.value.stage.todo;
    SharedInAnyStage(s, Step(s, FetchQueued(found)).value.run);
    assert [todo[0]] + todo[1..] == todo;
    TailOfDistinct(s, todo[0], todo[1..]);
  }

  lemma FetchGoneKeepsInv(s: System.State)
    requires Inv(s) && Step(s, FetchGone).Some?
    ensures Inv(Step(s, FetchGone).value)
  {
    var todo := s.run.value.stage.todo;
    SharedInAnyStage(s, Step(s, FetchGone).value.run);
    assert [todo[0]] + todo[1..] == todo;
    TailOfDistinct(s, todo[0], todo[1..]);
  }

  lemma QueueReadKeepsInv(s: System.State, event: Event)
    requires event.ReadFailed? || event.ReadPending?
    requires Inv(s) && Step(s, event).Some?
    ensures Inv(Step(s, event).value)
  {
    SharedInAnyStage(s, Step(s, event).value.run);
  }

  lemma WalkDoneKeepsInv(s: System.State)
    requires Inv(s) && Step(s, WalkDone).Some?
    ensures Inv(Step(s, WalkDone).value)
  {
    SharedInAnyStage(s, Step(s, WalkDone).value.run);
  }

  lemma FetchDoneKeepsInv(s: System.State)
    requires Inv(s) && Step(s, FetchDone).Some?
    ensures Inv(Step(s, FetchDone).value)
  {
    SharedInAnyStage(s, Step(s, FetchDone).value.run);
  }

  /** The events of a retry run before its checks. */
  lemma RetryKeepsInv(s: System.State, event: Event)
    requires IsRetryEvent(event)
    requires Inv(s) && Step(s, event).Some?
    ensures Inv(Step(s, event).value)
  {
    if event.ReadFailed? || event.ReadPending? {
      QueueReadKeepsInv(s, event);
    } else {
      match event {
        case FetchQueued(found) => FetchQueuedKeepsInv(s, found);
        case FetchGone => FetchGoneKeepsInv(s);
        case WalkFeedback(id) => WalkFeedbackKeepsInv(s, id);
        case WalkRecord => WalkRecordKeepsInv(s);
        case WalkRemove => RemovalKeepsInv(s);
        case WalkDone => WalkDoneKeepsInv(s);
        case FetchDone => FetchDoneKeepsInv(s);
        case MarkRead => MarkReadKeepsInv(s);
        case MarkWrite => MarkWriteKeepsInv(s);
      }
    }
  }

  // ---------------------------------------------------------------------------------------------
  // A periodic run outside its checks

  lemma OpeningKeepsInv(s: System.State, event: Event)
    requires event.MigrationDone? || event.ReadCursor?
    requires Inv(s) && Step(s, event).Some?
    ensures Inv(Step(s, event).value)
  {
    SharedInAnyStage(s, Step(s, event).value.run);
  }

  lemma FetchNewKeepsInv(s: System.State, accounts: seq<Account>)
    requires Inv(s) && Step(s, FetchNew(accounts)).Some?
    ensures Inv(Step(s, FetchNew(accounts)).value)
  {
    SharedInAnyStage(s, Step(s, FetchNew(accounts)).value.run);
  }

  lemma FetchRangeKeepsInv(s: System.State, accounts: seq<Account>)
    requires Inv(s) && Step(s, FetchRange(accounts)).Some?
    ensures Inv(Step(s, FetchRange(accounts)).value)
  {
    SharedInAnyStage(s, Step(s, FetchRange(accounts)).value.run);
  }

  lemma AscendingIndex(accounts: seq<Account>, i: nat, last: nat)
    requires StrictlyAscending(accounts) && i < |accounts| && last < |accounts| && accounts[i].id <= accounts[last].id
    ensures i <= last
  {
  }

  /** Everything listed from where the run's list continues up to its settled prefix is settled. */
  lemma PrefixCovers(s: System.State, cursor: Option<AccountId>, accounts: seq<Account>, upto: nat, x: AccountId)
    requires ListInv(s, cursor, accounts) && PrefixSettled(s.history, accounts, upto) && 0 < upto
    requires x in s.listed && x <= accounts[upto - 1].id
    requires if cursor.Some? then cursor.value < x else accounts[0].id <= x
    ensures SettledOrSystem(s.history, s.listed[x])
  {
    if upto - 1 < |accounts| - 1 {
      assert accounts[upto - 1].id < accounts[|accounts| - 1].id;
    }
    assert x in IdsOf(accounts);
    var i :| 0 <= i < |accounts| && accounts[i].id == x;
    AscendingIndex(accounts, i, upto - 1);
  }

  lemma SaveCursorKeepsCursor(s: System.State)
    requires Inv(s) && Step(s, SaveCursor).Some?
    ensures CursorInv(Step(s, SaveCursor).value)
  {
    var stage := s.run.value.stage;
    var s' := Step(s, SaveCursor).value;
    var upto := stage.upto;
    assert s'.redis.cursor == Some(stage.accounts[upto - 1].id);
    forall x | x in s'.listed && s'.history.base.value <= x <= s'.redis.cursor.value
      ensures SettledOrSystem(s'.history, s'.listed[x])
    {
      if stage.cursor.None? || stage.cursor.value < x {
        PrefixCovers(s, stage.cursor, stage.accounts, upto, x);
      }
    }
  }

  lemma SaveCursorKeepsInv(s: System.State)
    requires Inv(s) && Step(s, SaveCursor).Some?
    ensures Inv(Step(s, SaveCursor).value)
  {
    var s' := Step(s, SaveCursor).value;
    SaveCursorKeepsCursor(s);
    forall id ensures AcctInv(s'.redis, s'.now, s'.history, id) {
      AcctFrame(s.redis, s'.redis, s.now, s.history, s'.history, id);
    }
  }

  /** The events of a periodic run outside its checks, and a backfill's fetch. */
  lemma PeriodicKeepsInv(s: System.State, event: Event)
    requires IsPeriodicEvent(event)
    requires Inv(s) && Step(s, event).Some?
    ensures Inv(Step(s, event).value)
  {
    match event {
      case MigrateRead(id) => MigrateReadKeepsInv(s, id);
      case MigrateApply(id) => MigrateApplyKeepsInv(s, id);
      case MigrationDone => OpeningKeepsInv(s, event);
      case ReadCursor => OpeningKeepsInv(s, event);
      case FetchNew(accounts) => FetchNewKeepsInv(s, accounts);
      case FetchRange(accounts) => FetchRangeKeepsInv(s, accounts);
      case SaveCursor => SaveCursorKeepsInv(s);
    }
  }

  // ---------------------------------------------------------------------------------------------
  // The checks

  lemma {:induction false} FindPresent(accounts: seq<Account>, i: nat)
    requires i < |accounts|
    ensures FindAccount(accounts, accounts[i].id).Some? && FindAccount(accounts, accounts[i].id).value.id == accounts[i].id
    ensures StrictlyAscending(accounts) ==> FindAccount(accounts, accounts[i].id).value == accounts[i]
  {
    if i > 0 && accounts[0].id != accounts[i].id {
      FindPresent(accounts[1..], i - 1);
    }
  }

  /** The accounts of a new chunk are in the list, at the chunk's places. */
  lemma ChunkIsInList(accounts: seq<Account>, next: nat, upto: nat, id: AccountId)
    requires next <= upto <= |accounts| && id in IdsOf(accounts[next..upto])
    ensures FindAccount(accounts, id).Some? && FindAccount(accounts, id).value.id == id && InPart(accounts, next, upto, id)
  {
    var i :| 0 <= i < |accounts[next..upto]| && accounts[next..upto][i].id == id;
    FindPresent(accounts, next + i);
    assert accounts[next + i].id == id;
  }

  lemma StartedChunkStands(s: System.State, run: Run)
    requires StageInv(s, run.kind, run.stage) && s.run == Some(run) && run.stage.Checking? && StepStartChunk(s, run).Some?
    ensures var run' := StepStartChunk(s, run).value.run;
            run'.Some? && StageInv(s, run'.value.kind, run'.value.stage)
  {
    var stage' := StepStartChunk(s, run).value.run.value.stage;
    forall id | id in stage'.workers
      ensures FindAccount(stage'.accounts, id).Some? && FindAccount(stage'.accounts, id).value.id == id
      ensures InPart(stage'.accounts, stage'.next, stage'.end, id)
    {
      ChunkIsInList(stage'.accounts, stage'.next, stage'.end, id);
    }
  }

  /** What one step of one check does to the service, given what it does to its account. */
  ghost predicate CheckStepped(s: System.State, id: AccountId, input: W.Input, s': System.State) {
    && s.run.Some? && s.run.value.stage.Checking? && s'.run.Some? && s'.run.value.stage.Checking?
    && var (run, stage, stage') := (s.run.value, s.run.value.stage, s'.run.value.stage);
    && id in stage.workers && FindAccount(stage.accounts, id).Some?
    && var (account, phase) := (FindAccount(stage.accounts, id).value, stage.workers[id]);
    && var stepped := W.Step(s.redis, s.now, run.kind, run.process, account, phase, input);
    && stepped.Some?
    && s'.redis == stepped.value.0
    && s'.history == HistoryAfter(s.history, s'.redis, run.kind, id, phase, input)
    && s' == s.(redis := s'.redis, history := s'.history, run := s'.run)
    && s'.run.value == run.(stage := stage.(workers := stage.workers[id := stepped.value.1]))
  }

  lemma StepIsCheckStepped(s: System.State, id: AccountId, input: W.Input)
    requires s.run.Some? && s.run.value.stage.Checking? && StepCheck(s, s.run.value, id, input).Some?
    ensures CheckStepped(s, id, input, StepCheck(s, s.run.value, id, input).value)
  {
  }

  lemma CheckChangesItsAccount(s: System.State, id: AccountId, input: W.Input, s': System.State)
    requires Inv(s) && CheckStepped(s, id, input, s')
    ensures ChangedAt(s, s', id) && s'.redis.feedback == s.redis.feedback
  {
    var run, stage := s.run.value, s.run.value.stage;
    var account, phase := FindAccount(stage.accounts, id).value, stage.workers[id];
    forall other | other != id ensures SameAt(s.redis, s'.redis, other) {
      CheckTouchesOnlyItsAccount(s.redis, s.now, run.kind, run.process, account, phase, input, other);
    }
    CheckTouchesOnlyItsAccount(s.redis, s.now, run.kind, run.process, account, phase, input, id + 1);
    CheckHistoryGrows(s.history, s'.redis, run.kind, id, phase, input);
  }

  lemma CheckKeepsChecks(s: System.State, id: AccountId, input: W.Input, s': System.State)
    requires Inv(s) && CheckStepped(s, id, input, s') && ChangedAt(s, s', id)
    ensures ChecksInv(s', s'.run.value.kind, s'.run.value.stage.accounts, s'.run.value.stage.workers)
  {
    var run, stage := s.run.value, s.run.value.stage;
    assert AcctInv(s.redis, s.now, s.history, id);
    CheckKeepsCheck(s.redis, s.now, s.history, run.kind, run.process, FindAccount(stage.accounts, id).value, stage.workers[id], input);
    forall other | other in stage.workers && other != id
      ensures CheckInv(s'.redis, s'.now, s'.history, run.kind, FindAccount(stage.accounts, other).value, stage.workers[other])
    {
      CheckFrame(s.redis, s'.redis, s.now, s.history, s'.history, run.kind, FindAccount(stage.accounts, other).value, stage.workers[other]);
    }
  }

  lemma CheckStepKeepsInv(s: System.State, id: AccountId, input: W.Input)
    requires Inv(s) && s.run.Some? && s.run.value.stage.Checking? && StepCheck(s, s.run.value, id, input).Some?
    ensures Inv(StepCheck(s, s.run.value, id, input).value)
  {
    var s' := StepCheck(s, s.run.value, id, input).value;
    StepIsCheckStepped(s, id, input);
    var run, stage := s.run.value, s.run.value.stage;
    CheckChangesItsAccount(s, id, input, s');
    assert AcctInv(s.redis, s.now, s.history, id);
    CheckKeepsAcct(s.redis, s.now, s.history, run.kind, run.process, FindAccount(stage.accounts, id).value, stage.workers[id], input);
    SharedAfterRunWrite(s, s', id);
    CheckKeepsChecks(s, id, input, s');
    if run.kind.PeriodicCheck? {
      ListAfterChange(s, s', id, stage.cursor, stage.accounts, stage.next);
    }
  }

  /** The leading successes of a finished chunk extend the settled prefix. */
  lemma ChunkExtendsPrefix(s: System.State, kind: W.RunKind, accounts: seq<Account>, next: nat, end: nat, workers: map<AccountId, W.Phase>)
    requires next <= end <= |accounts| && StrictlyAscending(accounts)
    requires ChecksInv(s, kind, accounts, workers) && PrefixSettled(s.history, accounts, next)
    ensures PrefixSettled(s.history, accounts, next + Successes(accounts, workers, next, end))
  {
    var n := Successes(accounts, workers, next, end);
    forall i | next <= i < next + n ensures SettledOrSystem(s.history, accounts[i]) {
      FindPresent(accounts, i);
      assert CheckInv(s.redis, s.now, s.history, kind, accounts[i], workers[accounts[i].id]);
    }
  }

  lemma EndedChunkStands(s: System.State, run: Run)
    requires StageInv(s, run.kind, run.stage) && s.run == Some(run) && run.stage.Checking? && StepEndChunk(s, run).Some?
    ensures var run' := StepEndChunk(s, run).value.run;
            run'.Some? ==> StageInv(s, run'.value.kind, run'.value.stage)
  {
    if run.kind.PeriodicCheck? {
      ChunkExtendsPrefix(s, run.kind, run.stage.accounts, run.stage.next, run.stage.end, run.stage.workers);
    }
  }

  /** The events of the checks. */
  lemma ChecksKeepInv(s: System.State, event: Event)
    requires IsCheckEvent(event) && Inv(s) && s.run.Some? && StepChecks(s, s.run.value, event).Some?
    ensures Inv(StepChecks(s, s.run.value, event).value)
  {
    match event {
      case StartChunk =>
        StartedChunkStands(s, s.run.value);
        InvAtStage(s, StepStartChunk(s, s.run.value).value.run);
      case Check(id, input) => CheckStepKeepsInv(s, id, input);
      case EndChunk =>
        EndedChunkStands(s, s.run.value);
        InvAtStage(s, StepEndChunk(s, s.run.value).value.run);
    }
  }

  // ---------------------------------------------------------------------------------------------
  // The Slack server, and every history

  /** A moderator's feedback on one account, as the service sees it. */
  ghost predicate FeedbackGiven(s: System.State, s': System.State, id: AccountId, status: JobStatus) {
    && IsTerminalFeedback(Some(status))
    && s'.redis == RecordFeedback(s.redis, s.now, id, status).0
    && s'.history == NoteSettled(s.history, s'.redis, id)
    && s'.run == s.run && s'.now == s.now && s'.listed == s.listed && SameWorld(s, s')
  }

  lemma FeedbackChangesItsAccount(s: System.State, s': System.State, id: AccountId, status: JobStatus)
    requires AcctsInv(s) && FeedbackGiven(s, s', id, status)
    ensures ChangedAt(s, s', id) && AcctInv(s'.redis, s'.now, s'.history, id)
  {
    assert AcctInv(s.redis, s.now, s.history, id);
    FeedbackKeepsAcct(s.redis, s.now, s.history, id, status);
  }

  lemma FeedbackKeepsChecks(s: System.State, s': System.State, id: AccountId, status: JobStatus, kind: W.RunKind, accounts: seq<Account>, workers: map<AccountId, W.Phase>)
    requires FeedbackGiven(s, s', id, status) && ChangedAt(s, s', id) && ChecksInv(s, kind, accounts, workers)
    ensures ChecksInv(s', kind, accounts, workers)
  {
    forall other | other in workers
      ensures CheckInv(s'.redis, s'.now, s'.history, kind, FindAccount(accounts, other).value, workers[other])
    {
      var account, phase := FindAccount(accounts, other).value, workers[other];
      if other == id {
        FeedbackKeepsCheck(s.redis, s.now, s.history, kind, account, phase, status);
      } else {
        CheckFrame(s.redis, s'.redis, s.now, s.history, s'.history, kind, account, phase);
      }
    }
  }

  /** Feedback changes no record, so what a run has read stays as good as it was. */
  lemma FeedbackKeepsReads(s: System.State, s': System.State, id: AccountId, status: JobStatus, ids: seq<AccountId>)
    requires FeedbackGiven(s, s', id, status)
    ensures forall x :: GetJob(s'.redis, s'.now, x) == GetJob(s.redis, s.now, x)
    ensures AllNotCompleted(s, ids) ==> AllNotCompleted(s', ids)
    ensures forall x :: Dead(s.redis, x) ==> Dead(s'.redis, x)
    ensures forall x :: Dismissed(s.redis, x) ==> Dismissed(s'.redis, x)
  {
    if AllNotCompleted(s, ids) {
      forall i | 0 <= i < |ids| ensures NotCompleted(s'.redis, s'.now, ids[i]) {
        assert NotCompleted(s.redis, s.now, ids[i]);
      }
    }
  }

  lemma FeedbackKeepsStage(s: System.State, s': System.State, id: AccountId, status: JobStatus, kind: W.RunKind, stage: Stage)
    requires FeedbackGiven(s, s', id, status) && ChangedAt(s, s', id) && StageInv(s, kind, stage)
    ensures StageInv(s', kind, stage)
  {
    FeedbackKeepsReads(s, s', id, status, []);
    match stage {
      case Walking(_, live) => FeedbackKeepsReads(s, s', id, status, live);
      case Looking(_, _, _, live) => FeedbackKeepsReads(s, s', id, status, live);
      case Removing(_, _, live) => FeedbackKeepsReads(s, s', id, status, live);
      case Fetching(todo, _) => FeedbackKeepsReads(s, s', id, status, todo);
      case MarkReading(gone, todo, _) => FeedbackKeepsReads(s, s', id, status, [gone] + todo);
      case MarkWriting(gone, _, todo, _) => FeedbackKeepsReads(s, s', id, status, [gone] + todo);
      case Checking(cursor, accounts, next, _, workers) =>
        FeedbackKeepsChecks(s, s', id, status, kind, accounts, workers);
        if kind.PeriodicCheck? {
          ListAfterChange(s, s', id, cursor, accounts, next);
        }
      case SavingCursor(cursor, accounts, upto) => ListAfterChange(s, s', id, cursor, accounts, upto);
      case other =>
    }
  }

  lemma ClickKeepsServer(s: System.State, task: nat, id: AccountId, button: Server.Button)
    requires ServerInv(s) && StepServer(s, Click(task, id, button)).Some?
    ensures ServerInv(StepServer(s, Click(task, id, button)).value)
  {
    var s' := StepServer(s, Click(task, id, button)).value;
    if id !in s.inFlight {
      forall x ensures x in s'.inFlight <==> x in (set t | t in s'.tasks :: s'.tasks[t].id) {
        if x in s.inFlight {
          var t :| t in s.tasks && s.tasks[t].id == x;
          assert t in s'.tasks && s'.tasks[t].id == x;
        } else if x == id {
          assert task in s'.tasks && s'.tasks[task].id == x;
        }
      }
    }
  }

  lemma DropKeepsServer(s: System.State, task: nat)
    requires ServerInv(s) && task in s.tasks
    ensures ServerInv(StepServer(s, DropGuard(task)).value)
  {
    var s' := StepServer(s, DropGuard(task)).value;
    forall id ensures id in s'.inFlight <==> id in (set t | t in s'.tasks :: s'.tasks[t].id) {
      if id in s'.inFlight {
        var t :| t in s.tasks && s.tasks[t].id == id;
        assert t in s'.tasks && s'.tasks[t].id == id;
      }
    }
  }

  /** Clicks, and the ends of their tasks, keep the in-flight set and the tasks in step. */
  lemma ClicksKeepServer(s: System.State, event: Event)
    requires event.Click? || event.DropGuard? || event.CrashServer?
    requires ServerInv(s) && StepServer(s, event).Some?
    ensures ServerInv(StepServer(s, event).value)
  {
    match event {
      case Click(task, id, button) => ClickKeepsServer(s, task, id, button);
      case DropGuard(task) => DropKeepsServer(s, task);
      case CrashServer =>
    }
  }

  /** What a step of a click changes when it does not write feedback. */
  ghost predicate OnlyServer(s: System.State, s': System.State) {
    && s'.redis == s.redis && s'.now == s.now && s'.listed == s.listed && s'.run == s.run && SameWorld(s, s')
    && s'.history == s.history
  }

  lemma MoveOnServer(s: System.State, s': System.State)
    requires Inv(s) && OnlyServer(s, s') && ServerInv(s')
    ensures Inv(s')
  {
  }

  /** The state after one step of a click's task. */
  ghost predicate TaskStepped(s: System.State, task: nat, input: Server.TaskInput, s': System.State) {
    && task in s.tasks
    && var t := s.tasks[task];
    && var stepped := Server.TaskStep(s.redis, s.now, t, input);
    && stepped.Some?
    && s'.redis == stepped.value.0
    && s' == s.(redis := s'.redis, history := s'.history, tasks := s.tasks[task := t.(phase := stepped.value.1)])
    && s'.history == NoteSettled(s.history, s'.redis, t.id)
  }

  lemma TaskKeepsServer(s: System.State, task: nat, input: Server.TaskInput, s': System.State)
    requires ServerInv(s) && TaskStepped(s, task, input, s')
    ensures ServerInv(s')
  {
    var id := s.tasks[task].id;
    assert forall t :: t in s.tasks ==> s'.tasks[t].id == s.tasks[t].id;
    forall t | t in s'.tasks && t != task
      ensures FeedbackStatus(s'.redis, s'.tasks[t].id) == FeedbackStatus(s.redis, s.tasks[t].id)
    {
      assert s.tasks[t].id != id;
    }
  }

  lemma HandleKeepsInv(s: System.State, task: nat, input: Server.TaskInput, s': System.State)
    requires Inv(s) && TaskStepped(s, task, input, s')
    ensures Inv(s')
  {
    var t := s.tasks[task];
    TaskKeepsServer(s, task, input, s');
    if s'.redis != s.redis {
      var status := Server.FeedbackOf(t.button);
      assert FeedbackGiven(s, s', t.id, status);
      FeedbackChangesItsAccount(s, s', t.id, status);
      AcctsAfterChange(s, s', t.id);
      CursorAfterChange(s, s', t.id);
      if s.run.Some? {
        FeedbackKeepsStage(s, s', t.id, status, s.run.value.kind, s.run.value.stage);
      }
    } else {
      SettledAlready(s, t.id);
      MoveOnServer(s, s');
    }
  }

  lemma SettledAlready(s: System.State, id: AccountId)
    requires AcctsInv(s)
    ensures NoteSettled(s.history, s.redis, id) == s.history
  {
    assert AcctInv(s.redis, s.now, s.history, id);
    if Settles(s.redis, id) {
      assert s.history.settled + {id} == s.history.settled;
    }
  }

  lemma ServerKeepsInv(s: System.State, event: Event)
    requires event.Click? || event.Handle? || event.DropGuard? || event.CrashServer?
    requires Inv(s) && StepServer(s, event).Some?
    ensures Inv(StepServer(s, event).value)
  {
    var s' := StepServer(s, event).value;
    if event.Handle? {
      assert TaskStepped(s, event.task, event.action, s');
      HandleKeepsInv(s, event.task, event.action, s');
    } else {
      ClicksKeepServer(s, event);
      MoveOnServer(s, s');
    }
  }

  // ---------------------------------------------------------------------------------------------
  // Every event and every history

  /** Without the licence to linger there are no leftovers, and nothing happens to any. */
  lemma NothingLingers(s: System.State, event: Event)
    requires SharedInv(s) && IsLeftoverEvent(event)
    ensures Step(s, event).None?
  {
  }

  lemma StepKeepsInv(s: System.State, event: Event)
    requires Inv(s) && Step(s, event).Some?
    ensures Inv(Step(s, event).value)
  {
    if event.Tick? || event.Arrive? || event.StartRun? || event.CrashRun? {
      EnvironmentKeepsInv(s, event);
    } else if event.Click? || event.Handle? || event.DropGuard? || event.CrashServer? {
      ServerKeepsInv(s, event);
    } else if IsLeftoverEvent(event) {
      NothingLingers(s, event);
    } else if IsRetryEvent(event) {
      RetryKeepsInv(s, event);
    } else if IsCheckEvent(event) {
      ChecksKeepInv(s, event);
    } else {
      PeriodicKeepsInv(s, event);
    }
  }

  lemma {:induction false} PromptHistoryKeepsInv(events: seq<Event>, maxReply: nat)
    requires maxReply <= CLAIM_REPLY_MAX && AfterWithin(events, maxReply).Some?
    ensures Inv(AfterWithin(events, maxReply).value)
    decreases |events|
  {
    if events != [] {
      var before := events[..|events| - 1];
      PromptHistoryKeepsInv(before, maxReply);
      StepKeepsInv(AfterWithin(before, maxReply).value, events[|events| - 1]);
    }
  }

  lemma {:induction false} HistoryKeepsInv(events: seq<Event>)
    requires After(events).Some?
    ensures Inv(After(events).value)
  {
    PromptHistoryKeepsInv(events, CLAIM_REPLY_MAX);
  }
}
