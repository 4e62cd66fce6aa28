/**
 The whole service as one timed state machine: Redis, at most one leased run with its concurrent
 account checks (src/check.rs, src/cli.rs), the Slack server (src/server.rs), the listing of remote
 accounts, time, and crashes between any two steps. There is at most one run: `Lease` proves that no
 second operation is polled. Whether the checks of a run that lost its lease may go on beside the next
 one is a parameter, `mayLinger`; the histories of `After` are those in which they may not. The history
 fields only remember what happened.
 */
module System {
  import opened Wrappers
  import opened Accounts
  import opened Redis
  import Worker
  import Server
  import Http

  /** The latest a reply to a granted claim may arrive for the delivery to still fit the claim. */
  const CLAIM_REPLY_MAX: nat := NOTIFICATION_CLAIM_SECS * 1_000 - Http.DELIVERY_MAX - 1

  /** Where a leased run stands. */
  datatype Stage =
    | Migrating(startSecs: nat, decided: map<AccountId, Option<nat>>)
    | ReadingCursor
    | Listing(cursor: Option<AccountId>)
    | ReadingFailed
    | ReadingPending(failed: set<AccountId>)
    | Walking(queue: set<AccountId>, live: seq<AccountId>)
    | Looking(id: AccountId, resolved: bool, queue: set<AccountId>, live: seq<AccountId>)
    | Removing(dead: AccountId, queue: set<AccountId>, live: seq<AccountId>)
    | Fetching(todo: seq<AccountId>, fetched: seq<Account>)
    | MarkReading(gone: AccountId, todo: seq<AccountId>, fetched: seq<Account>)
    | MarkWriting(gone: AccountId, job: Option<Job>, todo: seq<AccountId>, fetched: seq<Account>)
    | Checking(cursor: Option<AccountId>, accounts: seq<Account>, next: nat, end: nat, workers: map<AccountId, Worker.Phase>)
    | SavingCursor(cursor: Option<AccountId>, accounts: seq<Account>, upto: nat)

  datatype Run = Run(kind: Worker.RunKind, process: nat, concurrency: nat, stage: Stage)

  datatype History = History(
    delivered: set<(AccountId, Verdict)>,   // a Slack send of the verdict returned success
    silent: set<(AccountId, Verdict)>,      // judged so by a run that does not notify
    settled: set<AccountId>,     // has had a completed or pending job, or feedback
    base: Option<AccountId>)     // first account of the run that first saved a cursor

  datatype State = State(
    redis: Redis.State,
    now: nat,
    listed: map<AccountId, Account>,
    run: Option<Run>,
    inFlight: set<AccountId>,
    tasks: map<nat, Server.Task>,
    history: History,
    maxReply: nat,              // how late the reply to a granted claim is assumed to arrive
    mayLinger: bool,            // whether checks may outlive a run that lost its lease
    leftovers: map<nat, Run>)   // the runs whose checks do

  const NOTHING := History({}, {}, {}, None)

  function Initial(maxReply: nat): State {
    State.State(Redis.EMPTY, 0, map[], None, {}, map[], NOTHING, maxReply, false, map[])
  }

  datatype Event =
    | Tick(elapsed: nat)
    | Arrive(account: Account)
    | StartRun(kind: Worker.RunKind, process: nat, concurrency: nat)
    | CrashRun
    | MigrateRead(id: AccountId)
    | MigrateApply(id: AccountId)
    | MigrationDone
    | ReadCursor
    | FetchNew(accounts: seq<Account>)
    | FetchRange(accounts: seq<Account>)
    | ReadFailed
    | ReadPending
    | WalkFeedback(id: AccountId)
    | WalkRecord
    | WalkRemove
    | WalkDone
    | FetchQueued(found: Option<Account>)
    | FetchGone
    | MarkRead
    | MarkWrite
    | FetchDone
    | StartChunk
    | Check(id: AccountId, input: Worker.Input)
    | EndChunk
    | SaveCursor
    | LoseLease(slot: nat)
    | LeftoverCheck(slot: nat, id: AccountId, input: Worker.Input)
    | LeftoverEnds(slot: nat)
    | Click(task: nat, id: AccountId, button: Server.Button)
    | Handle(task: nat, action: Server.TaskInput)
    | DropGuard(task: nat)
    | CrashServer

  // ---------------------------------------------------------------------------------------------
  // Guards and effects

  /** A delivery begins within the reply bound of its claim and ends within the retry loop's bound. */
  predicate MayWaitUntil(phase: Worker.Phase, time: nat, maxReply: nat) {
    match phase
    case HoldsClaim(_, _, claimedAt) => time <= claimedAt + maxReply
    case Sending(_, _, _, since) => time <= since + Http.DELIVERY_MAX
    case other => true
  }

  predicate ChecksMayWait(stage: Stage, time: nat, maxReply: nat) {
    stage.Checking? ==> forall id :: id in stage.workers ==> MayWaitUntil(stage.workers[id], time, maxReply)
  }

  predicate TimeMayPass(s: State, time: nat) {
    && (s.run.Some? ==> ChecksMayWait(s.run.value.stage, time, s.maxReply))
    && forall slot :: slot in s.leftovers ==> ChecksMayWait(s.leftovers[slot].stage, time, s.maxReply)
  }

  predicate FromListing(s: State, accounts: seq<Account>) {
    && StrictlyAscending(accounts)
    && forall i :: 0 <= i < |accounts| ==> accounts[i].id in s.listed && s.listed[accounts[i].id] == accounts[i]
  }

  /** The listed IDs from the bottom of a fetched list to its top; `Pagination` proves a fetch gives all of them. */
  predicate Contiguous(listed: set<AccountId>, cursor: Option<AccountId>, accounts: seq<Account>) {
    accounts != [] ==>
      forall x :: x in listed && x <= accounts[|accounts| - 1].id
                  && (if cursor.Some? then cursor.value < x else accounts[0].id <= x)
              ==> x in IdsOf(accounts)
  }

  /** What a fetch from the cursor on gives. */
  predicate NewlyListed(s: State, cursor: Option<AccountId>, accounts: seq<Account>) {
    && FromListing(s, accounts)
    && Contiguous(s.listed.Keys, cursor, accounts)
    && (cursor.Some? && accounts != [] ==> cursor.value < accounts[0].id)
  }

  function InStage(s: State, stage: Stage): State
    requires s.run.Some?
  {
    s.(run := Some(s.run.value.(stage := stage)))
  }

  function EndRun(s: State): State {
    s.(run := None)
  }

  function FindAccount(accounts: seq<Account>, id: AccountId): Option<Account> {
    if accounts == [] then None
    else if accounts[0].id == id then Some(accounts[0])
    else FindAccount(accounts[1..], id)
  }

  /** How many accounts from `next` on ended well before the first that did not. */
  function Successes(accounts: seq<Account>, workers: map<AccountId, Worker.Phase>, next: nat, end: nat): (n: nat)
    requires next <= end <= |accounts|
    ensures next + n <= end
    ensures forall i :: next <= i < next + n ==> accounts[i].id in workers && workers[accounts[i].id] == Worker.Done(true)
    decreases end - next
  {
    if next == end || accounts[next].id !in workers || workers[accounts[next].id] != Worker.Done(true) then 0
    else 1 + Successes(accounts, workers, next + 1, end)
  }

  /** Whether Redis shows the account settled: feedback, or a completed or pending job. */
  predicate Settles(r: Redis.State, id: AccountId) {
    || id in r.feedback
    || (id in r.jobs && (r.jobs[id].job.status.IsCompleted() || r.jobs[id].job.status.NotificationPending?))
  }

  /** What the history notes when Redis changed at one account. */
  function NoteSettled(h: History, r: Redis.State, id: AccountId): History {
    if Settles(r, id) then h.(settled := h.settled + {id}) else h
  }

  function Noted(s: State, id: AccountId, redis: Redis.State): State {
    s.(redis := redis, history := NoteSettled(s.history, redis, id))
  }

  /** What the history notes of a check's own step. */
  function NoteCheck(h: History, kind: Worker.RunKind, id: AccountId, phase: Worker.Phase, input: Worker.Input): History {
    if phase.Sending? && input == Worker.SendEnds(true) then
      h.(delivered := h.delivered + {(id, phase.report.verdict)})
    else if phase.Completing? && phase.status.Spam? && !phase.notified && kind == Worker.Backfill(false) && phase.verdict.Some? then
      h.(silent := h.silent + {(id, phase.verdict.value)})
    else h
  }

  // ---------------------------------------------------------------------------------------------
  // Steps

  function StepEnvironment(s: State, event: Event): Option<State>
    requires event.Tick? || event.Arrive? || event.StartRun? || event.CrashRun?
  {
    match event
    case Tick(elapsed) => if TimeMayPass(s, s.now + elapsed) then Some(s.(now := s.now + elapsed)) else None
    case Arrive(account) =>
      if forall x :: x in s.listed ==> x < account.id then Some(s.(listed := s.listed[account.id := account])) else None
    case StartRun(kind, process, concurrency) =>
      if s.run.Some? || concurrency == 0 then None
      else
        var stage := match kind
                     case PeriodicCheck => Migrating(Seconds(s.now), map[])
                     case RetryFailed => ReadingFailed
                     case Backfill(_) => Listing(None);
        Some(s.(run := Some(Run(kind, process, concurrency, stage))))
    case CrashRun => Some(EndRun(s))
  }

  predicate IsRetryEvent(event: Event) {
    || event.ReadFailed? || event.ReadPending? || event.WalkFeedback? || event.WalkRecord? || event.WalkRemove? || event.WalkDone?
    || event.FetchQueued? || event.FetchGone? || event.MarkRead? || event.MarkWrite? || event.FetchDone?
  }

  predicate IsCheckEvent(event: Event) {
    event.StartChunk? || event.Check? || event.EndChunk?
  }

  predicate IsPeriodicEvent(event: Event) {
    || event.MigrateRead? || event.MigrateApply? || event.MigrationDone? || event.ReadCursor?
    || event.FetchNew? || event.FetchRange? || event.SaveCursor?
  }

  /** The retention pass, the cursor and the fetch of listed accounts. */
  function StepPeriodic(s: State, run: Run, event: Event): Option<State>
    requires s.run == Some(run) && IsPeriodicEvent(event)
  {
    var stage := run.stage;
    match event
    case MigrateRead(id) =>
      var job := GetJob(s.redis, s.now, id);
      if !stage.Migrating? || job.None? then None
      else Some(InStage(s, stage.(decided := stage.decided[id := RemainingJobTtl(job.value, stage.startSecs)])))
    case MigrateApply(id) =>
      if !stage.Migrating? || id !in stage.decided then None
      else Some(Noted(s, id, ApplyTtl(s.redis, s.now, id, stage.decided[id])))
    case MigrationDone => if stage.Migrating? then Some(InStage(s, ReadingCursor)) else None
    case ReadCursor => if stage.ReadingCursor? then Some(InStage(s, Listing(s.redis.cursor))) else None
    case FetchNew(accounts) =>
      if !stage.Listing? || !run.kind.PeriodicCheck? || !NewlyListed(s, stage.cursor, accounts) then None
      else if accounts == [] then Some(EndRun(s))
      else Some(InStage(s, Checking(stage.cursor, accounts, 0, 0, map[])))
    case FetchRange(accounts) =>
      if !stage.Listing? || !run.kind.Backfill? || !FromListing(s, accounts) then None
      else if accounts == [] then Some(EndRun(s))
      else Some(InStage(s, Checking(None, accounts, 0, 0, map[])))
    case SaveCursor =>
      if !stage.SavingCursor? || !(0 < stage.upto <= |stage.accounts|) then None
      else
        var base := if s.redis.cursor.None? then Some(stage.accounts[0].id) else s.history.base;
        Some(EndRun(s.(redis := Redis.SetCursor(s.redis, stage.accounts[stage.upto - 1].id), history := s.history.(base := base))))
  }

  /** The walk of the retry queue and the fetch of its accounts. */
  function StepRetry(s: State, run: Run, event: Event): Option<State>
    requires s.run == Some(run) && IsRetryEvent(event)
  {
    var stage := run.stage;
    match event
    case ReadFailed => if stage.ReadingFailed? then Some(InStage(s, ReadingPending(s.redis.failed))) else None
    case ReadPending =>
      if stage.ReadingPending? then Some(InStage(s, Walking(stage.failed + s.redis.pending, []))) else None
    case WalkFeedback(id) =>
      if !stage.Walking? || id !in stage.queue then None
      else Some(InStage(s, Looking(id, HasTerminalFeedback(s.redis, id), stage.queue - {id}, stage.live)))
    case WalkRecord =>
      if !stage.Looking? then None
      else if stage.resolved || IsCompletedJob(GetJob(s.redis, s.now, stage.id))
      then Some(InStage(s, Removing(stage.id, stage.queue, stage.live)))
      else Some(InStage(s, Walking(stage.queue, stage.live + [stage.id])))
    case WalkRemove =>
      if !stage.Removing? then None
      else Some(InStage(s.(redis := RemoveFailed(s.redis, stage.dead)), Walking(stage.queue, stage.live)))
    case WalkDone => if stage.Walking? then Some(InStage(s, Fetching(stage.live, []))) else None
    case FetchQueued(found) =>
      if !stage.Fetching? || stage.todo == [] || (found.Some? && found.value.id != stage.todo[0]) then None
      else Some(InStage(s, Fetching(stage.todo[1..], if found.Some? then stage.fetched + [found.value] else stage.fetched)))
    case FetchGone =>
      if !stage.Fetching? || stage.todo == [] then None
      else Some(InStage(s, MarkReading(stage.todo[0], stage.todo[1..], stage.fetched)))
    case MarkRead =>
      if !stage.MarkReading? then None
      else Some(InStage(s, MarkWriting(stage.gone, GetJob(s.redis, s.now, stage.gone), stage.todo, stage.fetched)))
    case MarkWrite =>
      if !stage.MarkWriting? then None
      else
        var redis := if stage.job.Some? then WriteJob(s.redis, s.now, stage.gone, UnavailableRecord(stage.job.value, s.now), Clear)
                     else RemoveFailed(s.redis, stage.gone);
        Some(InStage(Noted(s, stage.gone, redis), Fetching(stage.todo, stage.fetched)))
    case FetchDone =>
      if !stage.Fetching? then None
      else if stage.fetched == [] then Some(EndRun(s))
      else Some(InStage(s, Checking(None, stage.fetched, 0, 0, map[])))
  }

  function StepStartChunk(s: State, run: Run): Option<State>
    requires s.run == Some(run) && run.stage.Checking?
  {
    var Checking(cursor, accounts, next, end, workers) := run.stage;
    if next != end || end >= |accounts| then None
    else
      var upto := Min(end + run.concurrency, |accounts|);
      Some(InStage(s, Checking(cursor, accounts, next, upto, map id | id in IdsOf(accounts[next..upto]) :: Worker.Start)))
  }

  function StepCheck(s: State, run: Run, id: AccountId, input: Worker.Input): Option<State>
    requires s.run == Some(run) && run.stage.Checking?
  {
    var Checking(cursor, accounts, next, end, workers) := run.stage;
    if id !in workers || FindAccount(accounts, id).None? then None
    else
      var phase := workers[id];
      var stepped := Worker.Step(s.redis, s.now, run.kind, run.process, FindAccount(accounts, id).value, phase, input);
      if stepped.None? then None
      else
        var (redis, after) := stepped.value;
        var noted := s.(history := NoteCheck(s.history, run.kind, id, phase, input));
        Some(InStage(Noted(noted, id, redis), Checking(cursor, accounts, next, end, workers[id := after])))
  }

  /** A finished chunk: go on with the next one, save the cursor, or just end. */
  function StepEndChunk(s: State, run: Run): Option<State>
    requires s.run == Some(run) && run.stage.Checking?
  {
    var Checking(cursor, accounts, next, end, workers) := run.stage;
    if !(next < end <= |accounts|) || exists id :: id in workers && !workers[id].Done? then None
    else
      var upto := next + Successes(accounts, workers, next, end);
      if upto == end < |accounts| then Some(InStage(s, Checking(cursor, accounts, end, end, map[])))
      else if run.kind.PeriodicCheck? && upto > 0 then Some(InStage(s, SavingCursor(cursor, accounts, upto)))
      else Some(EndRun(s))
  }

  /** The chunks of concurrent checks. */
  function StepChecks(s: State, run: Run, event: Event): Option<State>
    requires s.run == Some(run) && IsCheckEvent(event)
  {
    if !run.stage.Checking? then None
    else
      match event
      case StartChunk => StepStartChunk(s, run)
      case Check(id, input) => StepCheck(s, run, id, input)
      case EndChunk => StepEndChunk(s, run)
  }

  function StepRun(s: State, run: Run, event: Event): Option<State>
    requires s.run == Some(run)
  {
    if IsRetryEvent(event) then StepRetry(s, run, event)
    else if IsCheckEvent(event) then StepChecks(s, run, event)
    else if IsPeriodicEvent(event) then StepPeriodic(s, run, event)
    else None
  }

  predicate IsLeftoverEvent(event: Event) {
    event.LoseLease? || event.LeftoverCheck? || event.LeftoverEnds?
  }

  /** A run that lost its lease during its checks is no longer polled, but its checks go on. */
  function StepLoseLease(s: State, slot: nat): Option<State> {
    if !s.mayLinger || slot in s.leftovers || s.run.None? || !s.run.value.stage.Checking? then None
    else Some(s.(run := None, leftovers := s.leftovers[slot := s.run.value]))
  }

  function StepLeftoverCheck(s: State, slot: nat, id: AccountId, input: Worker.Input): Option<State> {
    if slot !in s.leftovers || !s.leftovers[slot].stage.Checking? then None
    else
      var run := s.leftovers[slot];
      if id !in run.stage.workers || FindAccount(run.stage.accounts, id).None? then None
      else
        var phase := run.stage.workers[id];
        var stepped := Worker.Step(s.redis, s.now, run.kind, run.process, FindAccount(run.stage.accounts, id).value, phase, input);
        if stepped.None? then None
        else
          var (redis, after) := stepped.value;
          var noted := s.(history := NoteCheck(s.history, run.kind, id, phase, input));
          Some(Noted(noted, id, redis).(
                 leftovers := s.leftovers[slot := run.(stage := run.stage.(workers := run.stage.workers[id := after]))]))
  }

  function StepLeftover(s: State, event: Event): Option<State>
    requires IsLeftoverEvent(event)
  {
    match event
    case LoseLease(slot) => StepLoseLease(s, slot)
    case LeftoverCheck(slot, id, input) => StepLeftoverCheck(s, slot, id, input)
    case LeftoverEnds(slot) => if slot in s.leftovers then Some(s.(leftovers := s.leftovers - {slot})) else None
  }

  function StepServer(s: State, event: Event): Option<State>
    requires event.Click? || event.Handle? || event.DropGuard? || event.CrashServer?
  {
    match event
    case Click(task, id, button) =>
      if task in s.tasks then None
      else if id in s.inFlight then Some(s)
      else Some(s.(inFlight := s.inFlight + {id}, tasks := s.tasks[task := Server.Task(id, button, Server.FirstPhase(button))]))
    case Handle(task, action) =>
      if task !in s.tasks then None
      else
        var t := s.tasks[task];
        var stepped := Server.TaskStep(s.redis, s.now, t, action);
        if stepped.None? then None
        else
          var (redis, phase) := stepped.value;
          Some(Noted(s.(tasks := s.tasks[task := t.(phase := phase)]), t.id, redis))
    case DropGuard(task) =>
      if task !in s.tasks then None
      else Some(s.(inFlight := s.inFlight - {s.tasks[task].id}, tasks := s.tasks - {task}))
    case CrashServer => Some(s.(inFlight := {}, tasks := map[]))
  }

  /** The state after an event, or `None` when the event cannot happen. */
  function Step(s: State, event: Event): Option<State> {
    if event.Tick? || event.Arrive? || event.StartRun? || event.CrashRun? then StepEnvironment(s, event)
    else if event.Click? || event.Handle? || event.DropGuard? || event.CrashServer? then StepServer(s, event)
    else if IsLeftoverEvent(event) then StepLeftover(s, event)
    else if s.run.Some? then StepRun(s, s.run.value, event)
    else None
  }

  /** The state some events lead to, or `None` if one of them could not happen. */
  function Play(origin: State, events: seq<Event>): Option<State> {
    if events == [] then Some(origin)
    else
      match Play(origin, events[..|events| - 1])
      case None => None
      case Some(s) => Step(s, events[|events| - 1])
  }

  /** The state after a history in which no check outlives its run. */
  function AfterWithin(events: seq<Event>, maxReply: nat): Option<State> {
    Play(Initial(maxReply), events)
  }

  /** The state after a history in which claim replies are as prompt as the claim needs. */
  function After(events: seq<Event>): Option<State> {
    AfterWithin(events, CLAIM_REPLY_MAX)
  }
}
