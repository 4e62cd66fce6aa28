/**
 Histories that happen: the undisturbed run that delivers, records and covers any account judged spam,
 and the resend that fails and is judged anew. The theorems over all histories are about runs that do
 get this far.
 */
module Scenario {
  import opened Wrappers
  import opened Accounts
  import opened Redis
  import opened System
  import opened AccountInvariants
  import opened SystemInvariants
  import opened SystemSteps
  import opened Safety
  import opened RetryQueue
  import W = Worker

  /** Some events lead from `origin` to `s`. */
  ghost predicate Leads(origin: System.State, s: System.State) {
    exists events :: Play(origin, events) == Some(s)
  }

  lemma Stay(s: System.State)
    ensures Leads(s, s)
  {
    assert Play(s, []) == Some(s);
  }

  lemma Go(origin: System.State, s: System.State, event: Event)
    requires Leads(origin, s) && Step(s, event).Some?
    ensures Leads(origin, Step(s, event).value)
  {
    var events :| Play(origin, events) == Some(s);
    assert (events + [event])[..|events|] == events;
    assert Play(origin, events + [event]) == Step(s, event);
  }

  /** One listed account, the kind of run that is to check it, and where the events set out from. */
  datatype Setting = Setting(account: Account, kind: W.RunKind, origin: System.State)

  /** Every run started is of that kind. */
  ghost predicate OnlyRuns(events: seq<Event>, kind: W.RunKind) {
    forall n :: 0 <= n < |events| && events[n].StartRun? ==> events[n].kind == kind
  }

  /** Some events, the setting's kind of run the only one among them, lead to `s`. */
  ghost predicate Reaches(c: Setting, s: System.State) {
    exists events :: Play(c.origin, events) == Some(s) && OnlyRuns(events, c.kind)
  }

  lemma SetOut(c: Setting)
    ensures Reaches(c, c.origin) && Leads(c.origin, c.origin)
  {
    assert Play(c.origin, []) == Some(c.origin) && OnlyRuns([], c.kind);
  }

  lemma Proceed(c: Setting, s: System.State, event: Event)
    requires Reaches(c, s) && Step(s, event).Some?
    requires event.StartRun? ==> event.kind == c.kind
    ensures Reaches(c, Step(s, event).value)
  {
    var events :| Play(c.origin, events) == Some(s) && OnlyRuns(events, c.kind);
    assert (events + [event])[..|events|] == events;
    assert Play(c.origin, events + [event]) == Step(s, event) && OnlyRuns(events + [event], c.kind);
  }

  lemma ReachedIsLed(c: Setting, s: System.State)
    requires Reaches(c, s)
    ensures Leads(c.origin, s)
  {
    var events :| Play(c.origin, events) == Some(s) && OnlyRuns(events, c.kind);
  }

  function Standing(c: Setting, r: Redis.State, h: History, run: Option<Run>): System.State {
    System.State.State(r, 0, map[c.account.id := c.account], run, {}, map[], h, c.origin.maxReply, c.origin.mayLinger, c.origin.leftovers)
  }

  function Idle(c: Setting, r: Redis.State, h: History): System.State {
    Standing(c, r, h, None)
  }

  function Running(c: Setting, r: Redis.State, h: History, stage: Stage): System.State {
    Standing(c, r, h, Some(Run(c.kind, 0, 1, stage)))
  }

  function Checked(c: Setting, r: Redis.State, h: History, phase: W.Phase): System.State {
    Running(c, r, h, Checking(None, [c.account], 0, 1, map[c.account.id := phase]))
  }

  // ---------------------------------------------------------------------------------------------
  // Moves

  lemma CheckGoesOn(c: Setting, r: Redis.State, h: History, phase: W.Phase, input: W.Input)
    requires Reaches(c, Checked(c, r, h, phase))
    requires W.Step(r, 0, c.kind, 0, c.account, phase, input).Some?
    ensures var (r', after) := W.Step(r, 0, c.kind, 0, c.account, phase, input).value;
            Reaches(c, Checked(c, r', HistoryAfter(h, r', c.kind, c.account.id, phase, input), after))
  {
    CheckStepIs(c, r, h, phase, input);
    CheckEventIs(Checked(c, r, h, phase), c.account.id, input);
    Proceed(c, Checked(c, r, h, phase), Check(c.account.id, input));
  }

  lemma CheckEventIs(s: System.State, id: AccountId, input: W.Input)
    requires s.run.Some? && s.run.value.stage.Checking?
    ensures Step(s, Check(id, input)) == StepCheck(s, s.run.value, id, input)
  {
  }

  lemma CheckStepIs(c: Setting, r: Redis.State, h: History, phase: W.Phase, input: W.Input)
    requires W.Step(r, 0, c.kind, 0, c.account, phase, input).Some?
    ensures var s, (r', after) := Checked(c, r, h, phase), W.Step(r, 0, c.kind, 0, c.account, phase, input).value;
            StepCheck(s, s.run.value, c.account.id, input)
            == Some(Checked(c, r', HistoryAfter(h, r', c.kind, c.account.id, phase, input), after))
  {
    var s, after := Checked(c, r, h, phase), W.Step(r, 0, c.kind, 0, c.account, phase, input).value.1;
    FindPresent([c.account], 0);
    assert s.run.value.stage.workers[c.account.id := after] == map[c.account.id := after];
  }

  /** The check can stand there, after a delivery of `sent` if there is one. */
  ghost predicate Stands(c: Setting, r: Redis.State, phase: W.Phase, sent: Option<Verdict>) {
    exists h: History :: Reaches(c, Checked(c, r, h, phase)) && (sent.Some? ==> (c.account.id, sent.value) in h.delivered)
  }

  lemma MovesTo(c: Setting, r: Redis.State, phase: W.Phase, sent: Option<Verdict>, input: W.Input, r': Redis.State, after: W.Phase)
    requires Stands(c, r, phase, sent)
    requires W.Step(r, 0, c.kind, 0, c.account, phase, input) == Some((r', after))
    ensures Stands(c, r', after, sent)
    ensures phase.Sending? && input == W.SendEnds(true) ==> Stands(c, r', after, Some(phase.report.verdict))
  {
    var h :| Reaches(c, Checked(c, r, h, phase)) && (sent.Some? ==> (c.account.id, sent.value) in h.delivered);
    CheckGoesOn(c, r, h, phase, input);
  }

  const ANSWERED := W.Command(W.Answered)

  lemma ChunkStarts(c: Setting, r: Redis.State, h: History)
    requires Reaches(c, Running(c, r, h, Checking(None, [c.account], 0, 0, map[])))
    ensures Reaches(c, Checked(c, r, h, W.Start))
  {
    var fetched := Running(c, r, h, Checking(None, [c.account], 0, 0, map[]));
    assert [c.account][0..1] == [c.account] && [c.account][0].id in IdsOf([c.account]);
    Proceed(c, fetched, StartChunk);
    assert Step(fetched, StartChunk).value.run.value.stage.workers == map[c.account.id := W.Start];
  }

  // ---------------------------------------------------------------------------------------------
  // A first run that lists accounts

  predicate IsFirstRun(c: Setting) {
    !c.kind.RetryFailed? && c.origin == Initial(c.origin.maxReply).(mayLinger := c.origin.mayLinger)
  }

  function FirstStage(kind: W.RunKind): Stage {
    if kind.PeriodicCheck? then Migrating(0, map[]) else Listing(None)
  }

  lemma RunStarts(c: Setting)
    requires IsFirstRun(c)
    ensures Reaches(c, Running(c, EMPTY, NOTHING, FirstStage(c.kind)))
  {
    SetOut(c);
    Proceed(c, c.origin, Arrive(c.account));
    var listed := c.origin.(listed := map[c.account.id := c.account]);
    assert Step(c.origin, Arrive(c.account)) == Some(listed);
    Proceed(c, listed, StartRun(c.kind, 0, 1));
  }

  lemma RunComesToList(c: Setting)
    requires IsFirstRun(c)
    ensures Reaches(c, Running(c, EMPTY, NOTHING, Listing(None)))
  {
    RunStarts(c);
    if c.kind.PeriodicCheck? {
      Proceed(c, Running(c, EMPTY, NOTHING, Migrating(0, map[])), MigrationDone);
      Proceed(c, Running(c, EMPTY, NOTHING, ReadingCursor), ReadCursor);
    }
  }

  lemma RunGetsToItsChecks(c: Setting)
    requires IsFirstRun(c)
    ensures Stands(c, EMPTY, W.Start, None)
  {
    RunComesToList(c);
    var s := Running(c, EMPTY, NOTHING, Listing(None));
    assert [c.account][0].id in IdsOf([c.account]);
    assert Contiguous(s.listed.Keys, None, [c.account]);
    Proceed(c, s, if c.kind.PeriodicCheck? then FetchNew([c.account]) else FetchRange([c.account]));
    ChunkStarts(c, EMPTY, NOTHING);
    assert Reaches(c, Checked(c, EMPTY, NOTHING, W.Start));
  }

  lemma CheckFindsNothing(c: Setting)
    requires IsFirstRun(c) && !IsSystemAccount(c.account)
    ensures Stands(c, EMPTY, W.BeginRead, None)
  {
    RunGetsToItsChecks(c);
    MovesTo(c, EMPTY, W.Start, None, W.Begin, EMPTY, W.ReadFeedback);
    MovesTo(c, EMPTY, W.ReadFeedback, None, ANSWERED, EMPTY, W.ReadRecord);
    MovesTo(c, EMPTY, W.ReadRecord, None, ANSWERED, EMPTY, W.BeginRead);
  }

  /** What Redis holds of the account while its first notification is owed. */
  function Pending(id: AccountId, report: W.Report): Redis.State {
    WriteClassification(SetJob(EMPTY, 0, id, report.job), 0, id, PendingRecord(report.job, report.verdict, report.campaign, 0))
  }

  predicate IsFirstReport(report: W.Report) {
    report.verdict.spam && report.job == BeginRecord(None, 0) && report.campaign == [] && !report.resend
  }

  lemma CheckComesToJudge(c: Setting)
    requires IsFirstRun(c) && !IsSystemAccount(c.account)
    ensures var job := BeginRecord(None, 0); Stands(c, SetJob(EMPTY, 0, c.account.id, job), W.Judge(job), None)
  {
    var job := BeginRecord(None, 0);
    CheckFindsNothing(c);
    MovesTo(c, EMPTY, W.BeginRead, None, ANSWERED, EMPTY, W.BeginWrite(job));
    MovesTo(c, EMPTY, W.BeginWrite(job), None, ANSWERED, SetJob(EMPTY, 0, c.account.id, job), W.Judge(job));
  }

  lemma VerdictIsReported(c: Setting, report: W.Report)
    requires IsFirstRun(c) && c.kind != W.Backfill(false) && !IsSystemAccount(c.account) && IsFirstReport(report)
    ensures Stands(c, SetJob(EMPTY, 0, c.account.id, report.job), W.ClassifyRead(report), None)
  {
    var begun := SetJob(EMPTY, 0, c.account.id, report.job);
    CheckComesToJudge(c);
    MovesTo(c, begun, W.Judge(report.job), None, W.Judged(report.verdict, []), begun, W.ClassifyRead(report));
  }

  /** The classification is stored. */
  lemma ClassificationIsStored(c: Setting, report: W.Report)
    requires IsFirstRun(c) && c.kind != W.Backfill(false) && !IsSystemAccount(c.account) && IsFirstReport(report)
    ensures Stands(c, Pending(c.account.id, report), W.Claiming(report), None)
  {
    var begun := SetJob(EMPTY, 0, c.account.id, report.job);
    VerdictIsReported(c, report);
    MovesTo(c, begun, W.ClassifyRead(report), None, ANSWERED, begun, W.ClassifyWrite(report, report.job));
    MovesTo(c, begun, W.ClassifyWrite(report, report.job), None, ANSWERED, Pending(c.account.id, report), W.Claiming(report));
  }

  /** The claim is granted. */
  lemma NotificationIsClaimed(c: Setting, r: Redis.State, report: W.Report)
    requires Stands(c, r, W.Claiming(report), None) && c.account.id !in r.feedback && c.account.id !in r.claims
    ensures Stands(c, ClaimNotification(r, 0, c.account.id, ClaimToken(0, 0)).0, W.HoldsClaim(report, ClaimToken(0, 0), 0), None)
  {
    var claimed := ClaimNotification(r, 0, c.account.id, ClaimToken(0, 0)).0;
    MovesTo(c, r, W.Claiming(report), None, ANSWERED, claimed, W.HoldsClaim(report, ClaimToken(0, 0), 0));
  }

  // ---------------------------------------------------------------------------------------------
  // A delivery that succeeds

  lemma SendSucceeds(c: Setting, claimed: Redis.State, report: W.Report, token: ClaimToken)
    requires Stands(c, claimed, W.HoldsClaim(report, token, 0), None)
    ensures Stands(c, claimed, W.ReleasingClaim(report, token, true), Some(report.verdict))
  {
    MovesTo(c, claimed, W.HoldsClaim(report, token, 0), None, W.SendBegins, claimed, W.Sending(report, token, 0, 0));
    MovesTo(c, claimed, W.Sending(report, token, 0, 0), None, W.SendEnds(true), claimed, W.ReleasingClaim(report, token, true));
  }

  /** The record of a delivered account. */
  predicate RecordedAsDelivered(r: Redis.State, id: AccountId, verdict: Verdict) {
    && id in r.jobs && r.jobs[id].job.status.Spam? && r.jobs[id].job.notified && r.jobs[id].job.verdict == Some(verdict)
    && id !in Queued(r)
  }

  lemma ClaimIsReleased(c: Setting, claimed: Redis.State, report: W.Report, token: ClaimToken)
    requires Stands(c, claimed, W.ReleasingClaim(report, token, true), Some(report.verdict))
    ensures Stands(c, ReleaseClaim(claimed, 0, c.account.id, token),
                   W.Completing(report.job, Spam, Some(report.verdict), true, report.campaign), Some(report.verdict))
  {
    MovesTo(c, claimed, W.ReleasingClaim(report, token, true), Some(report.verdict), ANSWERED,
            ReleaseClaim(claimed, 0, c.account.id, token), W.Completing(report.job, Spam, Some(report.verdict), true, report.campaign));
  }

  lemma SpamIsWritten(c: Setting, r: Redis.State, job: Job, verdict: Verdict, notified: bool, campaign: seq<AccountId>, sent: Option<Verdict>)
    requires Stands(c, r, W.Completing(job, Spam, Some(verdict), notified, campaign), sent)
    ensures Stands(c, WriteJob(r, 0, c.account.id, CompletedRecord(job, Spam, Some(verdict), notified, campaign, 0), Clear), W.Done(true), sent)
  {
    var done := WriteJob(r, 0, c.account.id, CompletedRecord(job, Spam, Some(verdict), notified, campaign, 0), Clear);
    var last := W.Completing(job, Spam, Some(verdict), notified, campaign);
    assert W.Step(r, 0, c.kind, 0, c.account, last, ANSWERED) == Some((done, W.Done(true)));
    MovesTo(c, r, last, sent, ANSWERED, done, W.Done(true));
  }

  /** The delivery succeeds and the record is completed. */
  lemma DeliveryGoesThrough(c: Setting, claimed: Redis.State, report: W.Report, token: ClaimToken)
    requires Stands(c, claimed, W.HoldsClaim(report, token, 0), None)
    ensures exists r :: Stands(c, r, W.Done(true), Some(report.verdict)) && RecordedAsDelivered(r, c.account.id, report.verdict) && r.cursor == claimed.cursor
  {
    var released := ReleaseClaim(claimed, 0, c.account.id, token);
    var done := WriteJob(released, 0, c.account.id, CompletedRecord(report.job, Spam, Some(report.verdict), true, report.campaign, 0), Clear);
    SendSucceeds(c, claimed, report, token);
    ClaimIsReleased(c, claimed, report, token);
    SpamIsWritten(c, released, report.job, report.verdict, true, report.campaign, Some(report.verdict));
    assert Stands(c, done, W.Done(true), Some(report.verdict)) && RecordedAsDelivered(done, c.account.id, report.verdict);
  }

  lemma ChunkEnds(c: Setting, r: Redis.State, h: History)
    requires Reaches(c, Checked(c, r, h, W.Done(true)))
    ensures Reaches(c, if c.kind.PeriodicCheck? then Running(c, r, h, SavingCursor(None, [c.account], 1)) else Idle(c, r, h))
  {
    var s := Checked(c, r, h, W.Done(true));
    assert Successes([c.account], map[c.account.id := W.Done(true)], 1, 1) == 0;
    assert Successes([c.account], map[c.account.id := W.Done(true)], 0, 1) == 1;
    Proceed(c, s, EndChunk);
  }

  /** The run ends, a periodic one with its cursor saved. */
  lemma RunEndsWell(c: Setting, r: Redis.State, sent: Option<Verdict>)
    requires Stands(c, r, W.Done(true), sent) && (c.kind.PeriodicCheck? ==> r.cursor.None?)
    ensures exists s :: Reaches(c, s) && s.run.None? && (sent.Some? ==> (c.account.id, sent.value) in s.history.delivered)
                        && s.redis == if c.kind.PeriodicCheck? then r.(cursor := Some(c.account.id)) else r
  {
    var h :| Reaches(c, Checked(c, r, h, W.Done(true))) && (sent.Some? ==> (c.account.id, sent.value) in h.delivered);
    ChunkEnds(c, r, h);
    if c.kind.PeriodicCheck? {
      Proceed(c, Running(c, r, h, SavingCursor(None, [c.account], 1)), SaveCursor);
    }
  }

  /** The run is over, and the account delivered, recorded so and unqueued. */
  predicate EndsDelivered(s: System.State, id: AccountId, verdict: Verdict) {
    s.run.None? && RecordedAsDelivered(s.redis, id, verdict) && (id, verdict) in s.history.delivered
  }

  lemma FirstRunDelivers(c: Setting, report: W.Report)
    requires IsFirstRun(c) && c.kind != W.Backfill(false) && !IsSystemAccount(c.account) && IsFirstReport(report)
    ensures exists s :: Reaches(c, s) && EndsDelivered(s, c.account.id, report.verdict)
                        && (c.kind.PeriodicCheck? ==> s.redis.cursor == Some(c.account.id))
  {
    var pending := Pending(c.account.id, report);
    ClassificationIsStored(c, report);
    NotificationIsClaimed(c, pending, report);
    var claimed := ClaimNotification(pending, 0, c.account.id, ClaimToken(0, 0)).0;
    DeliveryGoesThrough(c, claimed, report, ClaimToken(0, 0));
    var done :| Stands(c, done, W.Done(true), Some(report.verdict)) && RecordedAsDelivered(done, c.account.id, report.verdict) && done.cursor == claimed.cursor;
    RunEndsWell(c, done, Some(report.verdict));
  }

  /**
   For every account that is not a system account and every spam verdict some history, periodic runs the
   only ones in it, ends with the verdict delivered, recorded as notified, the account in neither queue
   and covered by the cursor; and so does one with only backfills that notify, but for the cursor.
   */
  lemma SpamCanBeDelivered(account: Account, verdict: Verdict, kind: W.RunKind, maxReply: nat)
    requires !IsSystemAccount(account) && verdict.spam
    requires kind == W.PeriodicCheck || kind == W.Backfill(true)
    ensures exists events :: OnlyRuns(events, kind)
              && var s := AfterWithin(events, maxReply);
              s.Some? && EndsDelivered(s.value, account.id, verdict) && (kind.PeriodicCheck? ==> s.value.redis.cursor == Some(account.id))
  {
    var c := Setting(account, kind, Initial(maxReply));
    FirstRunDelivers(c, W.Report(BeginRecord(None, 0), verdict, [], false));
    var s :| Reaches(c, s) && EndsDelivered(s, account.id, verdict) && (kind.PeriodicCheck? ==> s.redis.cursor == Some(account.id));
    var events :| Play(c.origin, events) == Some(s) && OnlyRuns(events, kind);
    assert AfterWithin(events, maxReply) == Some(s);
  }

  /** The record of an account judged spam of which nobody was told. */
  predicate RecordedSilently(r: Redis.State, id: AccountId, verdict: Verdict) {
    && id in r.jobs && r.jobs[id].job.status.Spam? && !r.jobs[id].job.notified && r.jobs[id].job.verdict == Some(verdict)
    && id !in Queued(r)
  }

  lemma SilentCheckEnds(c: Setting, verdict: Verdict)
    requires IsFirstRun(c) && c.kind == W.Backfill(false) && !IsSystemAccount(c.account) && verdict.spam
    ensures exists done :: Stands(c, done, W.Done(true), None) && RecordedSilently(done, c.account.id, verdict)
  {
    var job := BeginRecord(None, 0);
    var begun := SetJob(EMPTY, 0, c.account.id, job);
    var last := W.Completing(job, Spam, Some(verdict), false, []);
    var done := WriteJob(begun, 0, c.account.id, CompletedRecord(job, Spam, Some(verdict), false, [], 0), Clear);
    CheckComesToJudge(c);
    assert W.Step(begun, 0, c.kind, 0, c.account, W.Judge(job), W.Judged(verdict, [])) == Some((begun, last));
    MovesTo(c, begun, W.Judge(job), None, W.Judged(verdict, []), begun, last);
    SpamIsWritten(c, begun, job, verdict, false, [], None);
    assert RecordedSilently(done, c.account.id, verdict);
  }

  /** With only backfills that do not notify, some history ends with the verdict recorded and nothing delivered. */
  lemma SpamCanBeRecordedSilently(account: Account, verdict: Verdict, maxReply: nat)
    requires !IsSystemAccount(account) && verdict.spam
    ensures exists events :: OnlyRuns(events, W.Backfill(false))
              && var s := AfterWithin(events, maxReply); s.Some? && s.value.run.None? && RecordedSilently(s.value.redis, account.id, verdict)
  {
    var c := Setting(account, W.Backfill(false), Initial(maxReply));
    SilentCheckEnds(c, verdict);
    var done :| Stands(c, done, W.Done(true), None) && RecordedSilently(done, account.id, verdict);
    RunEndsWell(c, done, None);
    var s :| Reaches(c, s) && s.run.None? && s.redis == done;
    var events :| Play(c.origin, events) == Some(s) && OnlyRuns(events, W.Backfill(false));
    assert AfterWithin(events, maxReply) == Some(s);
  }

  // ---------------------------------------------------------------------------------------------
  // A resend that fails

  /** A retry run may take the account from the queue. */
  predicate MayRetry(r: Redis.State, id: AccountId) {
    id in Queued(r) && !Resolved(r, 0, id)
  }

  lemma QueueIsRead(c: Setting, r: Redis.State, h: History)
    requires c.kind.RetryFailed? && Reaches(c, Idle(c, r, h))
    ensures Reaches(c, Running(c, r, h, Walking(Queued(r), [])))
  {
    Proceed(c, Idle(c, r, h), StartRun(W.RetryFailed, 0, 1));
    Proceed(c, Running(c, r, h, ReadingFailed), ReadFailed);
    Proceed(c, Running(c, r, h, ReadingPending(r.failed)), ReadPending);
  }

  lemma QueueIsWalked(c: Setting, r: Redis.State, h: History)
    requires c.kind.RetryFailed? && Reaches(c, Running(c, r, h, Walking(Queued(r), []))) && MayRetry(r, c.account.id)
    ensures Reaches(c, Running(c, r, h, Fetching([c.account.id], [])))
  {
    var rest := Queued(r) - {c.account.id};
    EntryIsLookedAt(c, r, h, rest);
    Proceed(c, Running(c, r, h, Walking(rest, [c.account.id])), WalkDone);
  }

  lemma EntryIsLookedAt(c: Setting, r: Redis.State, h: History, rest: set<AccountId>)
    requires c.kind.RetryFailed? && Reaches(c, Running(c, r, h, Walking(Queued(r), []))) && MayRetry(r, c.account.id)
    requires rest == Queued(r) - {c.account.id}
    ensures Reaches(c, Running(c, r, h, Walking(rest, [c.account.id])))
  {
    var id := c.account.id;
    Proceed(c, Running(c, r, h, Walking(Queued(r), [])), WalkFeedback(id));
    assert [] + [id] == [id];
    Proceed(c, Running(c, r, h, Looking(id, false, rest, [])), WalkRecord);
  }

  lemma RetryGetsToItsChecks(c: Setting, r: Redis.State, h: History)
    requires c.kind.RetryFailed? && Reaches(c, Idle(c, r, h)) && MayRetry(r, c.account.id)
    ensures Reaches(c, Checked(c, r, h, W.Start))
  {
    QueueIsRead(c, r, h);
    QueueIsWalked(c, r, h);
    AccountIsFetched(c, r, h);
    Proceed(c, Running(c, r, h, Fetching([], [c.account])), FetchDone);
    ChunkStarts(c, r, h);
  }

  lemma AccountIsFetched(c: Setting, r: Redis.State, h: History)
    requires c.kind.RetryFailed? && Reaches(c, Running(c, r, h, Fetching([c.account.id], [])))
    ensures Reaches(c, Running(c, r, h, Fetching([], [c.account])))
  {
    var s := Running(c, r, h, Fetching([c.account.id], []));
    assert [c.account.id][1..] == [] && [] + [c.account] == [c.account];
    Proceed(c, s, FetchQueued(Some(c.account)));
  }

  /** A retry run of the account, from an idle service to the reading of its record. */
  lemma RetryReadsRecord(c: Setting, r: Redis.State, h: History)
    requires c.kind.RetryFailed? && c.origin == Idle(c, r, h) && MayRetry(r, c.account.id)
    requires !IsSystemAccount(c.account) && c.account.id !in r.feedback
    ensures Stands(c, r, W.ReadRecord, None)
  {
    SetOut(c);
    RetryGetsToItsChecks(c, r, h);
    assert Stands(c, r, W.Start, None);
    MovesTo(c, r, W.Start, None, W.Begin, r, W.ReadFeedback);
    MovesTo(c, r, W.ReadFeedback, None, ANSWERED, r, W.ReadRecord);
  }

  lemma ChunkFails(c: Setting, r: Redis.State, h: History)
    requires c.kind.RetryFailed? && Reaches(c, Checked(c, r, h, W.Done(false)))
    ensures Reaches(c, Idle(c, r, h))
  {
    var s := Checked(c, r, h, W.Done(false));
    assert Successes([c.account], map[c.account.id := W.Done(false)], 0, 1) == 0;
    Proceed(c, s, EndChunk);
  }

  // ---------------------------------------------------------------------------------------------
  // The failing resend

  /** The record says that a notification of the verdict is owed, and the account is queued for it. */
  predicate OwesNotification(r: Redis.State, id: AccountId, verdict: Verdict) {
    && id in r.jobs && r.jobs[id].job.status.NotificationPending? && r.jobs[id].job.verdict == Some(verdict) && r.jobs[id].expiry.None?
    && id in r.pending && id !in r.feedback && id !in r.claims
  }

  /** The record is Failed, keeps the verdict, and the account is queued. */
  predicate FailedWith(r: Redis.State, id: AccountId, verdict: Verdict) {
    && id in r.jobs && r.jobs[id].job.status.Failed? && r.jobs[id].job.verdict == Some(verdict) && r.jobs[id].expiry.None?
    && id in r.failed && id !in r.feedback
  }

  lemma ResendIsClaimed(c: Setting, r: Redis.State, h: History, report: W.Report)
    requires c.kind.RetryFailed? && c.origin == Idle(c, r, h) && !IsSystemAccount(c.account)
    requires OwesNotification(r, c.account.id, report.verdict)
    requires report == W.Report(r.jobs[c.account.id].job, report.verdict, r.jobs[c.account.id].job.campaign, true)
    ensures Stands(c, ClaimNotification(r, 0, c.account.id, ClaimToken(0, 0)).0, W.HoldsClaim(report, ClaimToken(0, 0), 0), None)
  {
    RetryReadsRecord(c, r, h);
    MovesTo(c, r, W.ReadRecord, None, ANSWERED, r, W.Claiming(report));
    NotificationIsClaimed(c, r, report);
  }

  lemma SendFails(c: Setting, claimed: Redis.State, report: W.Report, token: ClaimToken)
    requires Stands(c, claimed, W.HoldsClaim(report, token, 0), None)
    ensures Stands(c, claimed, W.ReleasingClaim(report, token, false), None)
  {
    MovesTo(c, claimed, W.HoldsClaim(report, token, 0), None, W.SendBegins, claimed, W.Sending(report, token, 0, 0));
    MovesTo(c, claimed, W.Sending(report, token, 0, 0), None, W.SendEnds(false), claimed, W.ReleasingClaim(report, token, false));
  }

  lemma FailureIsStored(c: Setting, r: Redis.State, job: Job)
    requires Stands(c, r, W.FailRead(job), None)
    ensures Stands(c, WriteJob(r, 0, c.account.id, FailedRecord(job, GetJob(r, 0, c.account.id), 0), Queue), W.Done(false), None)
  {
    var stored := GetJob(r, 0, c.account.id);
    MovesTo(c, r, W.FailRead(job), None, ANSWERED, r, W.FailWrite(job, stored));
    FailureIsWritten(c, r, job, stored);
  }

  lemma FailureIsWritten(c: Setting, r: Redis.State, job: Job, stored: Option<Job>)
    requires Stands(c, r, W.FailWrite(job, stored), None)
    ensures Stands(c, WriteJob(r, 0, c.account.id, FailedRecord(job, stored, 0), Queue), W.Done(false), None)
  {
    var failed := WriteJob(r, 0, c.account.id, FailedRecord(job, stored, 0), Queue);
    assert W.Step(r, 0, c.kind, 0, c.account, W.FailWrite(job, stored), ANSWERED) == Some((failed, W.Done(false)));
    MovesTo(c, r, W.FailWrite(job, stored), None, ANSWERED, failed, W.Done(false));
  }

  /** A retry run whose resend fails leaves the record Failed, with the verdict that was owed. */
  lemma ResendFails(c: Setting, r: Redis.State, h: History, verdict: Verdict)
    requires c.kind.RetryFailed? && c.origin == Idle(c, r, h) && !IsSystemAccount(c.account)
    requires OwesNotification(r, c.account.id, verdict)
    ensures exists r', h' :: Reaches(c, Idle(c, r', h')) && FailedWith(r', c.account.id, verdict)
  {
    var id, token := c.account.id, ClaimToken(0, 0);
    var report := W.Report(r.jobs[id].job, verdict, r.jobs[id].job.campaign, true);
    var claimed := ClaimNotification(r, 0, id, token).0;
    ResendIsClaimed(c, r, h, report);
    SendFails(c, claimed, report, token);
    FailedSendIsReleased(c, claimed, report, token);
    var released := ReleaseClaim(claimed, 0, id, token);
    FailureIsStored(c, released, report.job);
    RunEndsFailed(c, WriteJob(released, 0, id, FailedRecord(report.job, GetJob(released, 0, id), 0), Queue), verdict);
  }

  lemma FailedSendIsReleased(c: Setting, claimed: Redis.State, report: W.Report, token: ClaimToken)
    requires Stands(c, claimed, W.ReleasingClaim(report, token, false), None)
    ensures Stands(c, ReleaseClaim(claimed, 0, c.account.id, token), W.FailRead(report.job), None)
  {
    MovesTo(c, claimed, W.ReleasingClaim(report, token, false), None, ANSWERED,
            ReleaseClaim(claimed, 0, c.account.id, token), W.FailRead(report.job));
  }

  lemma RunEndsFailed(c: Setting, failed: Redis.State, verdict: Verdict)
    requires c.kind.RetryFailed? && Stands(c, failed, W.Done(false), None) && FailedWith(failed, c.account.id, verdict)
    ensures exists r', h' :: Reaches(c, Idle(c, r', h')) && FailedWith(r', c.account.id, verdict)
  {
    var h' :| Reaches(c, Checked(c, failed, h', W.Done(false)));
    ChunkFails(c, failed, h');
  }

  /** A retry run of a failed record gets to a new judgement, whatever verdict the record holds. */
  lemma FailedIsJudgedAnew(c: Setting, r: Redis.State, h: History, verdict: Verdict)
    requires c.kind.RetryFailed? && c.origin == Idle(c, r, h) && !IsSystemAccount(c.account)
    requires FailedWith(r, c.account.id, verdict)
    ensures exists r', job :: Stands(c, r', W.Judge(job), None) && job.verdict.None?
  {
    var id := c.account.id;
    var job := BeginRecord(Some(r.jobs[id].job), 0);
    RetryReadsRecord(c, r, h);
    MovesTo(c, r, W.ReadRecord, None, ANSWERED, r, W.BeginRead);
    MovesTo(c, r, W.BeginRead, None, ANSWERED, r, W.BeginWrite(job));
    MovesTo(c, r, W.BeginWrite(job), None, ANSWERED, SetJob(r, 0, id, job), W.Judge(job));
  }

  /** A first run that crashes once the classification is stored. */
  lemma PendingCanBeLeftBehind(account: Account, verdict: Verdict, maxReply: nat)
    requires !IsSystemAccount(account) && verdict.spam
    ensures var c := Setting(account, W.PeriodicCheck, Initial(maxReply));
            exists r, h :: Reaches(c, Idle(c, r, h)) && OwesNotification(r, account.id, verdict)
  {
    var c := Setting(account, W.PeriodicCheck, Initial(maxReply));
    var report := W.Report(BeginRecord(None, 0), verdict, [], false);
    var pending := Pending(account.id, report);
    ClassificationIsStored(c, report);
    var h :| Reaches(c, Checked(c, pending, h, W.Claiming(report)));
    Proceed(c, Checked(c, pending, h, W.Claiming(report)), CrashRun);
    assert Reaches(c, Idle(c, pending, h)) && OwesNotification(pending, account.id, verdict);
  }

  /** What the three moments of the history show of the account. */
  predicate ThreeMoments(account: Account, verdict: Verdict, owing: System.State, failed: System.State, judging: System.State) {
    && OwesNotification(owing.redis, account.id, verdict)
    && FailedWith(failed.redis, account.id, verdict)
    && judging.run.Some? && judging.run.value.kind.RetryFailed?
    && PhaseOf(judging, account.id).Some? && PhaseOf(judging, account.id).value.Judge?
  }

  /**
   A stored verdict is reused once. For every ordinary account and every spam verdict some history
   leads from a pending notification over a resend that fails to a Failed record with the same
   verdict, and from there to a retry run that is about to judge the account anew.
   */
  lemma FailedResendIsJudgedAnew(account: Account, verdict: Verdict, maxReply: nat)
    requires !IsSystemAccount(account) && verdict.spam
    ensures exists owing, failed, judging ::
              && Leads(Initial(maxReply), owing) && Leads(owing, failed) && Leads(failed, judging)
              && ThreeMoments(account, verdict, owing, failed, judging)
  {
    var first := Setting(account, W.PeriodicCheck, Initial(maxReply));
    PendingCanBeLeftBehind(account, verdict, maxReply);
    var r1, h1 :| Reaches(first, Idle(first, r1, h1)) && OwesNotification(r1, account.id, verdict);
    var owing := Idle(first, r1, h1);
    ReachedIsLed(first, owing);
    var resend := Setting(account, W.RetryFailed, owing);
    ResendFails(resend, r1, h1, verdict);
    var r2, h2 :| Reaches(resend, Idle(resend, r2, h2)) && FailedWith(r2, account.id, verdict);
    var failed := Idle(resend, r2, h2);
    ReachedIsLed(resend, failed);
    var again := Setting(account, W.RetryFailed, failed);
    FailedIsJudgedAnew(again, r2, h2, verdict);
    var r3, job :| Stands(again, r3, W.Judge(job), None) && job.verdict.None?;
    var h3 :| Reaches(again, Checked(again, r3, h3, W.Judge(job)));
    var judging := Checked(again, r3, h3, W.Judge(job));
    ReachedIsLed(again, judging);
    assert ThreeMoments(account, verdict, owing, failed, judging);
  }

  // ---------------------------------------------------------------------------------------------
  // An account that is gone

  /** The account is closed: in neither queue, its record Unavailable. */
  predicate IsClosed(r: Redis.State, id: AccountId) {
    id in r.jobs && r.jobs[id].job.status.Unavailable? && id !in Queued(r)
  }

  lemma GoneIsClosed(c: Setting, r: Redis.State, h: History)
    requires c.kind.RetryFailed? && Reaches(c, Running(c, r, h, Fetching([c.account.id], [])))
    requires GetJob(r, 0, c.account.id).Some?
    ensures exists r', h' :: Reaches(c, Running(c, r', h', Fetching([], []))) && IsClosed(r', c.account.id)
  {
    var id := c.account.id;
    var job := GetJob(r, 0, id);
    var closed := WriteJob(r, 0, id, UnavailableRecord(job.value, 0), Clear);
    assert [id][1..] == [];
    Proceed(c, Running(c, r, h, Fetching([id], [])), FetchGone);
    Proceed(c, Running(c, r, h, MarkReading(id, [], [])), MarkRead);
    Proceed(c, Running(c, r, h, MarkWriting(id, job, [], [])), MarkWrite);
    assert Reaches(c, Running(c, closed, NoteSettled(h, closed, id), Fetching([], []))) && IsClosed(closed, id);
  }

  /** A retry run that is told the account is gone. */
  lemma RunFindsItGone(c: Setting, r: Redis.State, h: History)
    requires c.kind.RetryFailed? && c.origin == Idle(c, r, h) && MayRetry(r, c.account.id) && GetJob(r, 0, c.account.id).Some?
    ensures exists r', h' :: Reaches(c, Idle(c, r', h')) && IsClosed(r', c.account.id)
  {
    SetOut(c);
    QueueIsRead(c, r, h);
    QueueIsWalked(c, r, h);
    GoneIsClosed(c, r, h);
    var r', h' :| Reaches(c, Running(c, r', h', Fetching([], []))) && IsClosed(r', c.account.id);
    NothingToCheck(c, r', h');
  }

  lemma NothingToCheck(c: Setting, r: Redis.State, h: History)
    requires c.kind.RetryFailed? && Reaches(c, Running(c, r, h, Fetching([], [])))
    ensures Reaches(c, Idle(c, r, h))
  {
    Proceed(c, Running(c, r, h, Fetching([], [])), FetchDone);
  }

  /**
   For every account that a notification is owed for, some history, retry runs the only ones in it,
   ends with the account closed: the retry run is told that Mastodon no longer has it.
   */
  lemma GoneAccountCanBeClosed(account: Account, verdict: Verdict, maxReply: nat)
    requires !IsSystemAccount(account) && verdict.spam
    ensures exists owing, events :: Leads(Initial(maxReply), owing) && OwesNotification(owing.redis, account.id, verdict)
              && OnlyRuns(events, W.RetryFailed) && Play(owing, events).Some?
              && Play(owing, events).value.run.None? && IsClosed(Play(owing, events).value.redis, account.id)
  {
    var first := Setting(account, W.PeriodicCheck, Initial(maxReply));
    PendingCanBeLeftBehind(account, verdict, maxReply);
    var r, h :| Reaches(first, Idle(first, r, h)) && OwesNotification(r, account.id, verdict);
    var owing := Idle(first, r, h);
    ReachedIsLed(first, owing);
    var retry := Setting(account, W.RetryFailed, owing);
    RunFindsItGone(retry, r, h);
    var r', h' :| Reaches(retry, Idle(retry, r', h')) && IsClosed(r', account.id);
    var events :| Play(owing, events) == Some(Idle(retry, r', h')) && OnlyRuns(events, W.RetryFailed);
    assert Leads(Initial(maxReply), owing) && IsClosed(Play(owing, events).value.redis, account.id);
  }

  // ---------------------------------------------------------------------------------------------
  // The resend that succeeds

  lemma ResendSucceeds(c: Setting, r: Redis.State, h: History, verdict: Verdict)
    requires c.kind.RetryFailed? && c.origin == Idle(c, r, h) && !IsSystemAccount(c.account)
    requires OwesNotification(r, c.account.id, verdict)
    ensures exists s :: Reaches(c, s) && EndsDelivered(s, c.account.id, verdict)
  {
    var id, token := c.account.id, ClaimToken(0, 0);
    var report := W.Report(r.jobs[id].job, verdict, r.jobs[id].job.campaign, true);
    var claimed := ClaimNotification(r, 0, id, token).0;
    ResendIsClaimed(c, r, h, report);
    DeliveryGoesThrough(c, claimed, report, token);
    var done :| Stands(c, done, W.Done(true), Some(verdict)) && RecordedAsDelivered(done, id, verdict) && done.cursor == claimed.cursor;
    RunEndsWell(c, done, Some(verdict));
  }

  /**
   For every ordinary account and spam verdict, a crash after the classification leaves a notification
   owed, and from there some history, retry runs the only ones in it, ends with that verdict delivered.
   */
  lemma PendingCanBeResent(account: Account, verdict: Verdict, maxReply: nat)
    requires !IsSystemAccount(account) && verdict.spam
    ensures exists owing, events :: Leads(Initial(maxReply), owing) && OwesNotification(owing.redis, account.id, verdict)
              && OnlyRuns(events, W.RetryFailed) && Play(owing, events).Some? && EndsDelivered(Play(owing, events).value, account.id, verdict)
  {
    var first := Setting(account, W.PeriodicCheck, Initial(maxReply));
    PendingCanBeLeftBehind(account, verdict, maxReply);
    var r, h :| Reaches(first, Idle(first, r, h)) && OwesNotification(r, account.id, verdict);
    var owing := Idle(first, r, h);
    ReachedIsLed(first, owing);
    var resend := Setting(account, W.RetryFailed, owing);
    ResendSucceeds(resend, r, h, verdict);
    var s :| Reaches(resend, s) && EndsDelivered(s, account.id, verdict);
    var events :| Play(owing, events) == Some(s) && OnlyRuns(events, W.RetryFailed);
    assert Leads(Initial(maxReply), owing) && EndsDelivered(Play(owing, events).value, account.id, verdict);
  }
}
