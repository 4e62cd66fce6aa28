/**
 Which verdict a delivery carries, and what a record that calls an account spam says of the very check
 that wrote it.
 */
module Verdicts {
  import opened Wrappers
  import opened Accounts
  import opened Redis
  import opened System
  import opened AccountInvariants
  import opened SystemInvariants
  import opened Frames
  import opened SystemSteps
  import opened Safety
  import W = Worker

  /** Event `m` belongs to the chunk of checks under way. */
  predicate InThisChunk(events: seq<Event>, m: int) {
    0 <= m < |events| && forall k :: m < k < |events| ==> !events[k].StartChunk?
  }

  /** The state in which the check of the account is answered the record it asked for. */
  predicate ReadsRecord(s: Option<System.State>, id: AccountId) {
    s.Some? && PhaseOf(s.value, id) == Some(W.ReadRecord)
  }

  predicate IsRead(events: seq<Event>, m: int, id: AccountId) {
    0 <= m < |events| && events[m] == Check(id, W.Command(W.Answered)) && ReadsRecord(After(events[..m]), id)
  }

  /** The record the check of the account read at event `m`. */
  function RecordRead(events: seq<Event>, m: int, id: AccountId): Option<Job>
    requires IsRead(events, m, id)
  {
    GetJob(After(events[..m]).value.redis, After(events[..m]).value.now, id)
  }

  predicate IsPending(job: Option<Job>) {
    job.Some? && job.value.status.NotificationPending?
  }

  predicate IsJudgement(event: Event, id: AccountId) {
    event.Check? && event.id == id && event.input.Judged?
  }

  /** In this check the account was judged so. */
  ghost predicate Judged(events: seq<Event>, id: AccountId, verdict: Verdict) {
    exists m :: InThisChunk(events, m) && IsJudgement(events[m], id) && events[m].input.verdict == verdict
  }

  ghost predicate NotJudged(events: seq<Event>, id: AccountId) {
    forall m :: InThisChunk(events, m) ==> !IsJudgement(events[m], id)
  }

  /** In this check a pending notification of the verdict was read. */
  ghost predicate ReadPending(events: seq<Event>, id: AccountId, verdict: Verdict) {
    exists m :: InThisChunk(events, m) && IsRead(events, m, id)
                && IsPending(RecordRead(events, m, id)) && RecordRead(events, m, id).value.verdict == Some(verdict)
  }

  ghost predicate ReadNothingPending(events: seq<Event>, id: AccountId) {
    forall m :: InThisChunk(events, m) && IsRead(events, m, id) ==> !IsPending(RecordRead(events, m, id))
  }

  ghost predicate ReadNothing(events: seq<Event>, id: AccountId) {
    forall m :: InThisChunk(events, m) ==> !IsRead(events, m, id)
  }

  /** A verdict taken from the record, or judged in this check. */
  ghost predicate ReportOrigin(events: seq<Event>, id: AccountId, kind: W.RunKind, report: W.Report) {
    if report.resend then kind.RetryFailed? && NotJudged(events, id) && ReadPending(events, id, report.verdict)
    else ReadNothingPending(events, id) && Judged(events, id, report.verdict)
  }

  /** Where a check stands with its verdict. */
  datatype Standing = Unread | Fresh | Reporting(report: W.Report) | Past

  function StandingOf(phase: W.Phase): Standing {
    match phase
    case Start => Unread
    case ReadFeedback => Unread
    case ReadRecord => Unread
    case BeginRead => Fresh
    case BeginWrite(_) => Fresh
    case Judge(_) => Fresh
    case ClassifyRead(report) => Reporting(report)
    case ClassifyWrite(report, _) => Reporting(report)
    case Claiming(report) => Reporting(report)
    case HoldsClaim(report, _, _) => Reporting(report)
    case Sending(report, _, _, _) => Reporting(report)
    case ReleasingClaim(report, _, _) => Reporting(report)
    case CheckSuppressed(report) => Reporting(report)
    case other => Past
  }

  /** What the standing of a check says about how it got there. */
  ghost predicate Origin(events: seq<Event>, id: AccountId, kind: W.RunKind, standing: Standing) {
    match standing
    case Unread => ReadNothing(events, id) && NotJudged(events, id)
    case Fresh => ReadNothingPending(events, id) && NotJudged(events, id)
    case Reporting(report) => ReportOrigin(events, id, kind, report)
    case Past => true
  }

  // ---------------------------------------------------------------------------------------------
  // One more event

  /** One more event of the chunk, as far as the earlier ones go. */
  lemma EarlierEventsStay(events: seq<Event>, event: Event, m: int)
    requires 0 <= m < |events|
    ensures (events + [event])[m] == events[m] && (events + [event])[..m] == events[..m]
    ensures InThisChunk(events + [event], m) <==> InThisChunk(events, m) && !event.StartChunk?
  {
    var longer := events + [event];
    if InThisChunk(longer, m) {
      assert forall k :: m < k < |events| ==> events[k] == longer[k];
      assert longer[|events|] == event;
    }
  }

  lemma JudgedStays(events: seq<Event>, event: Event, id: AccountId, verdict: Verdict)
    requires !event.StartChunk? && Judged(events, id, verdict)
    ensures Judged(events + [event], id, verdict)
  {
    var m :| InThisChunk(events, m) && IsJudgement(events[m], id) && events[m].input.verdict == verdict;
    EarlierEventsStay(events, event, m);
  }

  lemma NotJudgedStays(events: seq<Event>, event: Event, id: AccountId)
    requires NotJudged(events, id) && !IsJudgement(event, id)
    ensures NotJudged(events + [event], id)
  {
    forall m | InThisChunk(events + [event], m) ensures !IsJudgement((events + [event])[m], id) {
      if m < |events| {
        EarlierEventsStay(events, event, m);
      }
    }
  }

  lemma ReadPendingStays(events: seq<Event>, event: Event, id: AccountId, verdict: Verdict)
    requires !event.StartChunk? && ReadPending(events, id, verdict)
    ensures ReadPending(events + [event], id, verdict)
  {
    var m :| InThisChunk(events, m) && IsRead(events, m, id)
             && IsPending(RecordRead(events, m, id)) && RecordRead(events, m, id).value.verdict == Some(verdict);
    EarlierEventsStay(events, event, m);
    assert IsRead(events + [event], m, id);
  }

  lemma ReadNothingPendingStays(events: seq<Event>, event: Event, id: AccountId)
    requires ReadNothingPending(events, id)
    requires IsRead(events + [event], |events|, id) ==> !IsPending(RecordRead(events + [event], |events|, id))
    ensures ReadNothingPending(events + [event], id)
  {
    var longer := events + [event];
    forall m | InThisChunk(longer, m) && IsRead(longer, m, id) ensures !IsPending(RecordRead(longer, m, id)) {
      if m < |events| {
        EarlierEventsStay(events, event, m);
        assert IsRead(events, m, id);
      }
    }
  }

  lemma ReadNothingStays(events: seq<Event>, event: Event, id: AccountId)
    requires ReadNothing(events, id) && !IsRead(events + [event], |events|, id)
    ensures ReadNothing(events + [event], id) && ReadNothingPending(events + [event], id)
  {
    forall m | InThisChunk(events + [event], m) ensures !IsRead(events + [event], m, id) {
      if m < |events| {
        EarlierEventsStay(events, event, m);
      }
    }
  }

  lemma NewChunkHasNothing(events: seq<Event>, event: Event, id: AccountId)
    requires event.StartChunk?
    ensures ReadNothing(events + [event], id) && NotJudged(events + [event], id)
  {
    forall m | InThisChunk(events + [event], m) ensures m == |events| && (events + [event])[m] == event {
      if m < |events| {
        EarlierEventsStay(events, event, m);
      }
    }
  }

  /** An event that is none of the account's checks leaves its origin. */
  lemma OriginStays(events: seq<Event>, event: Event, id: AccountId, kind: W.RunKind, standing: Standing)
    requires Origin(events, id, kind, standing) && !event.StartChunk? && !(event.Check? && event.id == id)
    ensures Origin(events + [event], id, kind, standing)
  {
    assert (events + [event])[|events|] == event;
    if NotJudged(events, id) {
      NotJudgedStays(events, event, id);
    }
    if ReadNothing(events, id) {
      ReadNothingStays(events, event, id);
    }
    if ReadNothingPending(events, id) {
      ReadNothingPendingStays(events, event, id);
    }
    forall v | Judged(events, id, v) ensures Judged(events + [event], id, v) {
      JudgedStays(events, event, id, v);
    }
    forall v | ReadPending(events, id, v) ensures ReadPending(events + [event], id, v) {
      ReadPendingStays(events, event, id, v);
    }
  }

  // ---------------------------------------------------------------------------------------------
  // The account's own steps

  /** A step that neither reads the record nor judges carries the origin along. */
  lemma OwnStepCarriesOrigin(events: seq<Event>, id: AccountId, input: W.Input, kind: W.RunKind, standing: Standing)
    requires Origin(events, id, kind, standing)
    requires !ReadsRecord(After(events), id) && !input.Judged?
    ensures Origin(events + [Check(id, input)], id, kind, standing)
  {
    var event := Check(id, input);
    assert (events + [event])[|events|] == event && (events + [event])[..|events|] == events;
    if NotJudged(events, id) {
      NotJudgedStays(events, event, id);
    }
    if ReadNothing(events, id) {
      ReadNothingStays(events, event, id);
    }
    if ReadNothingPending(events, id) {
      ReadNothingPendingStays(events, event, id);
    }
    forall v | Judged(events, id, v) ensures Judged(events + [event], id, v) {
      JudgedStays(events, event, id, v);
    }
    forall v | ReadPending(events, id, v) ensures ReadPending(events + [event], id, v) {
      ReadPendingStays(events, event, id, v);
    }
  }

  lemma ReadingFindsOrigin(events: seq<Event>, s: System.State, id: AccountId, input: W.Input, kind: W.RunKind, process: nat, account: Account)
    requires After(events) == Some(s) && PhaseOf(s, id) == Some(W.ReadRecord) && account.id == id
    requires Origin(events, id, kind, Unread)
    requires W.Step(s.redis, s.now, kind, process, account, W.ReadRecord, input).Some?
    ensures var after := W.Step(s.redis, s.now, kind, process, account, W.ReadRecord, input).value.1;
            Origin(events + [Check(id, input)], id, kind, StandingOf(after))
  {
    var event := Check(id, input);
    var longer := events + [event];
    assert longer[|events|] == event && longer[..|events|] == events;
    NotJudgedStays(events, event, id);
    var after := W.Step(s.redis, s.now, kind, process, account, W.ReadRecord, input).value.1;
    if after.Claiming? {
      assert InThisChunk(longer, |events|) && IsRead(longer, |events|, id);
      assert ReadPending(longer, id, after.report.verdict);
    } else if after.BeginRead? {
      ReadNothingPendingStays(events, event, id);
    }
  }

  lemma JudgingFindsOrigin(events: seq<Event>, s: System.State, id: AccountId, input: W.Input, kind: W.RunKind, process: nat, account: Account, job: Job)
    requires After(events) == Some(s) && PhaseOf(s, id) == Some(W.Judge(job)) && account.id == id && input.Judged?
    requires Origin(events, id, kind, Fresh)
    requires W.Step(s.redis, s.now, kind, process, account, W.Judge(job), input).Some?
    ensures var after := W.Step(s.redis, s.now, kind, process, account, W.Judge(job), input).value.1;
            Origin(events + [Check(id, input)], id, kind, StandingOf(after))
  {
    var event := Check(id, input);
    var longer := events + [event];
    assert longer[|events|] == event && longer[..|events|] == events;
    ReadNothingPendingStays(events, event, id);
    assert InThisChunk(longer, |events|) && IsJudgement(longer[|events|], id);
    assert Judged(longer, id, input.verdict);
  }

  /** Any other step keeps the standing, until the verdict is done with. */
  lemma StepKeepsStanding(r: Redis.State, now: nat, kind: W.RunKind, process: nat, account: Account, phase: W.Phase, input: W.Input)
    requires W.Step(r, now, kind, process, account, phase, input).Some? && !phase.ReadRecord? && !input.Judged?
    ensures var standing := StandingOf(W.Step(r, now, kind, process, account, phase, input).value.1);
            standing == StandingOf(phase) || standing.Past?
  {
  }

  lemma OnlyJudgingJudges(r: Redis.State, now: nat, kind: W.RunKind, process: nat, account: Account, phase: W.Phase, input: W.Input)
    requires W.Step(r, now, kind, process, account, phase, input).Some? && input.Judged?
    ensures phase.Judge?
  {
  }

  lemma OwnStepFindsOrigin(events: seq<Event>, s: System.State, id: AccountId, input: W.Input, s': System.State)
    requires After(events) == Some(s) && Inv(s) && CheckStepped(s, id, input, s')
    requires Origin(events, id, s.run.value.kind, StandingOf(PhaseOf(s, id).value))
    ensures Origin(events + [Check(id, input)], id, s'.run.value.kind, StandingOf(PhaseOf(s', id).value))
  {
    var run, stage := s.run.value, s.run.value.stage;
    var account, phase := FindAccount(stage.accounts, id).value, stage.workers[id];
    if phase.ReadRecord? {
      ReadingFindsOrigin(events, s, id, input, run.kind, run.process, account);
    } else if input.Judged? {
      OnlyJudgingJudges(s.redis, s.now, run.kind, run.process, account, phase, input);
      JudgingFindsOrigin(events, s, id, input, run.kind, run.process, account, phase.job);
    } else {
      OwnStepCarriesOrigin(events, id, input, run.kind, StandingOf(phase));
      StepKeepsStanding(s.redis, s.now, run.kind, run.process, account, phase, input);
    }
  }

  /** Other events leave the account's check where it is, unless they start a chunk. */
  lemma OtherEventsKeepPhase(s: System.State, event: Event, id: AccountId)
    requires Step(s, event).Some? && !(event.Check? && event.id == id)
    requires PhaseOf(Step(s, event).value, id).Some?
    ensures var s' := Step(s, event).value;
            if event.StartChunk? then PhaseOf(s', id) == Some(W.Start)
            else PhaseOf(s', id) == PhaseOf(s, id) && s'.run.value.kind == s.run.value.kind
  {
    if IsRetryEvent(event) {
      RetryFrame(s, event);
    } else if IsPeriodicEvent(event) {
      PeriodicFrame(s, event);
    } else if IsServerEvent(event) {
      ServerFrame(s, event);
    } else if IsEnvironmentEvent(event) {
      EnvironmentFrame(s, event);
    } else if IsLeftoverEvent(event) {
      LeftoverFrame(s, event);
    } else if event.Check? {
      StepIsCheckStepped(s, event.id, event.input);
    }
  }

  lemma {:induction false} EveryCheckHasOrigin(events: seq<Event>, id: AccountId)
    requires After(events).Some? && PhaseOf(After(events).value, id).Some?
    ensures var s := After(events).value; Origin(events, id, s.run.value.kind, StandingOf(PhaseOf(s, id).value))
    decreases |events|
  {
    var before, event := events[..|events| - 1], events[|events| - 1];
    LastStep(events);
    var s := After(before).value;
    assert before + [event] == events;
    if event.Check? && event.id == id {
      StepIsCheckStepped(s, id, event.input);
      EveryCheckHasOrigin(before, id);
      OwnStepFindsOrigin(before, s, id, event.input, After(events).value);
    } else {
      if !event.StartChunk? {
        OtherEventsKeepPhase(s, event, id);
        EveryCheckHasOrigin(before, id);
      }
      OtherEventKeepsOrigin(before, s, event, id);
    }
  }

  lemma OtherEventKeepsOrigin(events: seq<Event>, s: System.State, event: Event, id: AccountId)
    requires Step(s, event).Some? && !(event.Check? && event.id == id) && PhaseOf(Step(s, event).value, id).Some?
    requires !event.StartChunk? ==> PhaseOf(s, id).Some? && Origin(events, id, s.run.value.kind, StandingOf(PhaseOf(s, id).value))
    ensures var s' := Step(s, event).value; Origin(events + [event], id, s'.run.value.kind, StandingOf(PhaseOf(s', id).value))
  {
    OtherEventsKeepPhase(s, event, id);
    if event.StartChunk? {
      NewChunkHasNothing(events, event, id);
    } else {
      OriginStays(events, event, id, s.run.value.kind, StandingOf(PhaseOf(s, id).value));
    }
  }

  // ---------------------------------------------------------------------------------------------
  // Theorems

  /** In this check the record read was a pending notification. */
  ghost predicate FoundPending(events: seq<Event>, id: AccountId) {
    exists m :: InThisChunk(events, m) && IsRead(events, m, id) && IsPending(RecordRead(events, m, id))
  }

  /**
   Over every history, a verdict that is claimed for, sent or released is the one on record. It was
   reused, that is, delivered without a judgement in this check, if and only if the check read a
   pending notification; then the run is a retry run and the verdict is the one that record held.
   Otherwise it is the verdict judged in this check.
   */
  lemma {:induction false} VerdictIsReusedIffPending(events: seq<Event>, id: AccountId)
    requires After(events).Some? && PhaseOf(After(events).value, id).Some? && Notifying(PhaseOf(After(events).value, id).value)
    ensures var s := After(events).value;
            var verdict := PhaseOf(s, id).value.report.verdict;
            && id in s.redis.jobs && s.redis.jobs[id].job.verdict == Some(verdict)
            && (NotJudged(events, id) <==> FoundPending(events, id))
            && (if FoundPending(events, id) then s.run.value.kind.RetryFailed? && ReadPending(events, id, verdict)
                else Judged(events, id, verdict))
  {
    HistoryKeepsInv(events);
    EveryCheckHasOrigin(events, id);
    var s := After(events).value;
    var account := FindAccount(s.run.value.stage.accounts, id).value;
    assert CheckInv(s.redis, s.now, s.history, s.run.value.kind, account, s.run.value.stage.workers[id]);
    var report := PhaseOf(s, id).value.report;
    assert ReportOrigin(events, id, s.run.value.kind, report);
    if report.resend {
      var m :| InThisChunk(events, m) && IsRead(events, m, id)
               && IsPending(RecordRead(events, m, id)) && RecordRead(events, m, id).value.verdict == Some(report.verdict);
      assert FoundPending(events, id);
    }
  }

  /** The other way round: a check that reads a pending notification goes on to resend it in a retry run, and ends in any other. */
  lemma {:induction false} PendingIsResentByRetryRuns(events: seq<Event>, id: AccountId)
    requires After(events).Some? && ReadsRecord(After(events), id)
    requires Step(After(events).value, Check(id, W.Command(W.Answered))).Some?
    requires IsPending(GetJob(After(events).value.redis, After(events).value.now, id))
    ensures var s := After(events).value;
            var s' := Step(s, Check(id, W.Command(W.Answered))).value;
            var stored := GetJob(s.redis, s.now, id).value;
            && stored.verdict.Some?
            && PhaseOf(s', id) == Some(if s.run.value.kind.RetryFailed?
                                       then W.Claiming(W.Report(stored, stored.verdict.value, stored.campaign, true))
                                       else W.Done(true))
  {
    HistoryKeepsInv(events);
    var s := After(events).value;
    StepIsCheckStepped(s, id, W.Command(W.Answered));
    assert AcctInv(s.redis, s.now, s.history, id);
  }

  // ---------------------------------------------------------------------------------------------
  // The record a check has written

  // ---------------------------------------------------------------------------------------------
  // The sends of a check

  predicate IsSuccess(event: Event, id: AccountId) {
    event == Check(id, W.SendEnds(true))
  }

  /** In this check a send of the verdict returned success. */
  ghost predicate SentInCheck(events: seq<Event>, id: AccountId, verdict: Verdict) {
    exists m :: InThisChunk(events, m) && IsSuccess(events[m], id) && SendsVerdict(After(events[..m]), id, verdict)
  }

  ghost predicate NothingSent(events: seq<Event>, id: AccountId) {
    forall m :: InThisChunk(events, m) ==> !IsSuccess(events[m], id)
  }

  /** What a check says of its sends, once it may have sent. */
  datatype Saying = Unsent | Sent(verdict: Option<Verdict>) | Nothing

  function SayingOf(phase: W.Phase): Saying {
    match phase
    case ReleasingClaim(report, _, sent) => if sent then Sent(Some(report.verdict)) else Unsent
    case Completing(_, _, verdict, notified, _) => if notified then Sent(verdict) else Unsent
    case FailRead(_) => Nothing
    case FailWrite(_, _) => Nothing
    case Done(_) => Nothing
    case other => Unsent
  }

  ghost predicate SendOrigin(events: seq<Event>, id: AccountId, saying: Saying) {
    match saying
    case Unsent => NothingSent(events, id)
    case Sent(verdict) => verdict.Some? && SentInCheck(events, id, verdict.value)
    case Nothing => true
  }

  lemma SentStays(events: seq<Event>, event: Event, id: AccountId, verdict: Verdict)
    requires !event.StartChunk? && SentInCheck(events, id, verdict)
    ensures SentInCheck(events + [event], id, verdict)
  {
    var m :| InThisChunk(events, m) && IsSuccess(events[m], id) && SendsVerdict(After(events[..m]), id, verdict);
    EarlierEventsStay(events, event, m);
  }

  lemma NothingSentStays(events: seq<Event>, event: Event, id: AccountId)
    requires NothingSent(events, id) && !IsSuccess(event, id)
    ensures NothingSent(events + [event], id)
  {
    forall m | InThisChunk(events + [event], m) ensures !IsSuccess((events + [event])[m], id) {
      if m < |events| {
        EarlierEventsStay(events, event, m);
      }
    }
  }

  lemma JustSent(events: seq<Event>, id: AccountId, verdict: Verdict)
    requires SendsVerdict(After(events), id, verdict)
    ensures SentInCheck(events + [Check(id, W.SendEnds(true))], id, verdict)
  {
    var longer := events + [Check(id, W.SendEnds(true))];
    assert longer[..|events|] == events && longer[|events|] == Check(id, W.SendEnds(true));
    assert InThisChunk(longer, |events|);
  }

  lemma NewChunkSentNothing(events: seq<Event>, event: Event, id: AccountId)
    requires event.StartChunk?
    ensures NothingSent(events + [event], id)
  {
    forall m | InThisChunk(events + [event], m) ensures (events + [event])[m] == event {
      if m < |events| {
        EarlierEventsStay(events, event, m);
      }
    }
  }

  /** An event that is no successful send and starts no chunk leaves what a check knows of its sends. */
  lemma SendOriginStays(events: seq<Event>, event: Event, id: AccountId, saying: Saying)
    requires SendOrigin(events, id, saying) && !event.StartChunk? && !IsSuccess(event, id)
    ensures SendOrigin(events + [event], id, saying)
  {
    if NothingSent(events, id) {
      NothingSentStays(events, event, id);
    }
    forall v | SentInCheck(events, id, v) ensures SentInCheck(events + [event], id, v) {
      SentStays(events, event, id, v);
    }
  }

  /** A step that is no successful send leads to a phase that says the same, or nothing any more. */
  lemma OtherStepsSayTheSame(r: Redis.State, now: nat, kind: W.RunKind, process: nat, account: Account, phase: W.Phase, input: W.Input)
    requires W.Step(r, now, kind, process, account, phase, input).Some? && input != W.SendEnds(true)
    ensures var saying := SayingOf(W.Step(r, now, kind, process, account, phase, input).value.1);
            saying == SayingOf(phase) || saying.Nothing?
  {
  }

  lemma OwnStepSays(events: seq<Event>, s: System.State, id: AccountId, input: W.Input, s': System.State)
    requires After(events) == Some(s) && Inv(s) && CheckStepped(s, id, input, s')
    requires SendOrigin(events, id, SayingOf(PhaseOf(s, id).value))
    ensures SendOrigin(events + [Check(id, input)], id, SayingOf(PhaseOf(s', id).value))
  {
    var run, stage := s.run.value, s.run.value.stage;
    var account, phase := FindAccount(stage.accounts, id).value, stage.workers[id];
    if input == W.SendEnds(true) {
      SuccessComesFromSending(s.redis, s.now, run.kind, run.process, account, phase);
      JustSent(events, id, phase.report.verdict);
    } else {
      OtherStepsSayTheSame(s.redis, s.now, run.kind, run.process, account, phase, input);
      SendOriginStays(events, Check(id, input), id, SayingOf(phase));
    }
  }

  lemma SuccessComesFromSending(r: Redis.State, now: nat, kind: W.RunKind, process: nat, account: Account, phase: W.Phase)
    requires W.Step(r, now, kind, process, account, phase, W.SendEnds(true)).Some?
    ensures phase.Sending?
    ensures W.Step(r, now, kind, process, account, phase, W.SendEnds(true)).value.1 == W.ReleasingClaim(phase.report, phase.token, true)
  {
  }

  lemma {:induction false} EveryCheckSays(events: seq<Event>, id: AccountId)
    requires After(events).Some? && PhaseOf(After(events).value, id).Some?
    ensures SendOrigin(events, id, SayingOf(PhaseOf(After(events).value, id).value))
    decreases |events|
  {
    var before, event := events[..|events| - 1], events[|events| - 1];
    LastStep(events);
    var s := After(before).value;
    assert before + [event] == events;
    if event.Check? && event.id == id {
      StepIsCheckStepped(s, id, event.input);
      EveryCheckSays(before, id);
      OwnStepSays(before, s, id, event.input, After(events).value);
    } else {
      if !event.StartChunk? {
        OtherEventsKeepPhase(s, event, id);
        EveryCheckSays(before, id);
      }
      OtherEventKeepsSaying(before, s, event, id);
    }
  }

  lemma OtherEventKeepsSaying(events: seq<Event>, s: System.State, event: Event, id: AccountId)
    requires Step(s, event).Some? && !(event.Check? && event.id == id) && PhaseOf(Step(s, event).value, id).Some?
    requires !event.StartChunk? ==> PhaseOf(s, id).Some? && SendOrigin(events, id, SayingOf(PhaseOf(s, id).value))
    ensures SendOrigin(events + [event], id, SayingOf(PhaseOf(Step(s, event).value, id).value))
  {
    OtherEventsKeepPhase(s, event, id);
    if event.StartChunk? {
      NewChunkSentNothing(events, event, id);
    } else {
      SendOriginStays(events, event, id, SayingOf(PhaseOf(s, id).value));
    }
  }

  // ---------------------------------------------------------------------------------------------
  // What a completion says

  /** The check of the account is about to complete it as spam with that verdict. */
  predicate CompletesAsSpam(s: Option<System.State>, id: AccountId, verdict: Verdict, notified: bool) {
    && s.Some? && PhaseOf(s.value, id).Some?
    && var phase := PhaseOf(s.value, id).value;
    phase.Completing? && phase.status.Spam? && phase.verdict == Some(verdict) && phase.notified == notified
  }

  /** What the check, after those events, has done and what kind of run it is of. */
  ghost predicate TellsTheTruth(events: seq<Event>, s: System.State, id: AccountId, verdict: Verdict, notified: bool) {
    && s.run.Some? && verdict.spam
    && (notified <==> SentInCheck(events, id, verdict))
    && (id !in s.redis.feedback ==> (notified <==> s.run.value.kind != W.Backfill(false)))
  }

  /**
   Over every history, a check that is about to complete an account as spam calls it notified if and
   only if a send of that very verdict has returned success in this check; and unless a moderator has
   decided the account, if and only if its run notifies.
   */
  lemma {:induction false} CompletionTellsItsCheck(events: seq<Event>, id: AccountId, verdict: Verdict, notified: bool)
    requires CompletesAsSpam(After(events), id, verdict, notified)
    ensures TellsTheTruth(events, After(events).value, id, verdict, notified)
  {
    HistoryKeepsInv(events);
    EveryCheckSays(events, id);
    var s := After(events).value;
    var account := FindAccount(s.run.value.stage.accounts, id).value;
    assert CheckInv(s.redis, s.now, s.history, s.run.value.kind, account, s.run.value.stage.workers[id]);
  }

  // ---------------------------------------------------------------------------------------------
  // The record and the completion that wrote it

  function Stored(s: Option<System.State>, id: AccountId): Option<Job> {
    if s.Some? && id in s.value.redis.jobs then Some(s.value.redis.jobs[id].job) else None
  }

  predicate IsSpam(job: Option<Job>) {
    job.Some? && job.value.status.Spam?
  }

  /** Event `m` completed the account as spam, and the record it wrote has stood since. */
  ghost predicate WroteRecord(events: seq<Event>, m: int, id: AccountId, verdict: Verdict, notified: bool) {
    && 0 <= m < |events| && events[m].Check? && events[m].id == id
    && CompletesAsSpam(After(events[..m]), id, verdict, notified)
    && forall k :: m < k <= |events| ==> Stored(After(events[..k]), id) == Stored(After(events), id)
  }

  /** An event that puts a spam record in place is the completion of a check of the account. */
  lemma OnlyCompletionsWriteSpam(s: System.State, event: Event, id: AccountId)
    requires Inv(s) && Step(s, event).Some?
    requires IsSpam(Stored(Step(s, event), id)) && Stored(Step(s, event), id) != Stored(Some(s), id)
    ensures event.Check? && event.id == id
    ensures var job := Stored(Step(s, event), id).value;
            job.verdict.Some? && CompletesAsSpam(Some(s), id, job.verdict.value, job.notified)
  {
    if event.Check? {
      StepIsCheckStepped(s, event.id, event.input);
      CheckWritesSpam(s, event.id, event.input, Step(s, event).value, id);
    } else {
      OtherEventsWriteNoSpam(s, event, id);
    }
  }

  lemma CheckWritesSpam(s: System.State, checked: AccountId, input: W.Input, s': System.State, id: AccountId)
    requires Inv(s) && CheckStepped(s, checked, input, s')
    requires IsSpam(Stored(Some(s'), id)) && Stored(Some(s'), id) != Stored(Some(s), id)
    ensures checked == id
    ensures var job := Stored(Some(s'), id).value;
            job.verdict.Some? && CompletesAsSpam(Some(s), id, job.verdict.value, job.notified)
  {
    var run, stage := s.run.value, s.run.value.stage;
    var account, phase := FindAccount(stage.accounts, checked).value, stage.workers[checked];
    assert CheckInv(s.redis, s.now, s.history, run.kind, account, phase);
    if checked == id {
      CheckWritesSpamOnlyCompleting(s.redis, s.now, run.kind, run.process, account, phase, input);
    } else {
      CheckTouchesOnlyItsAccount(s.redis, s.now, run.kind, run.process, account, phase, input, id);
    }
  }

  lemma CheckWritesSpamOnlyCompleting(r: Redis.State, now: nat, kind: W.RunKind, process: nat, account: Account, phase: W.Phase, input: W.Input)
    requires W.Step(r, now, kind, process, account, phase, input).Some?
    ensures var r' := W.Step(r, now, kind, process, account, phase, input).value.0;
            var id := account.id;
            id in r'.jobs && r'.jobs[id].job.status.Spam? && (id !in r.jobs || r'.jobs[id].job != r.jobs[id].job) && !phase.BeginWrite? ==>
              && phase.Completing? && phase.status.Spam?
              && r'.jobs[id].job.verdict == phase.verdict && r'.jobs[id].job.notified == phase.notified
  {
    StepWritesOrNot(r, now, kind, process, account, phase, input);
  }

  lemma OtherEventsWriteNoSpam(s: System.State, event: Event, id: AccountId)
    requires Inv(s) && Step(s, event).Some? && !event.Check? && IsSpam(Stored(Step(s, event), id))
    ensures Stored(Step(s, event), id) == Stored(Some(s), id)
  {
    if IsLeftoverEvent(event) {
      NothingLingers(s, event);
    } else if event.MigrateApply? {
      MigrationWritesNoJob(s.redis, s.now, event.id, s.run.value.stage.decided[event.id], id);
    } else if event.Tick? {
    } else if event.MarkWrite? {
    } else {
      OtherStepsKeepJobs(s, event);
    }
  }

  lemma MigrationWritesNoJob(r: Redis.State, now: nat, migrated: AccountId, ttl: Option<nat>, id: AccountId)
    ensures var r' := ApplyTtl(r, now, migrated, ttl); id in r'.jobs ==> id in r.jobs && r'.jobs[id].job == r.jobs[id].job
  {
  }

  lemma {:induction false} SpamRecordWasWritten(events: seq<Event>, id: AccountId)
    requires IsSpam(Stored(After(events), id))
    ensures var job := Stored(After(events), id).value;
            job.verdict.Some? && exists m :: WroteRecord(events, m, id, job.verdict.value, job.notified)
    decreases |events|
  {
    var before, last := events[..|events| - 1], |events| - 1;
    LastStep(events);
    var job := Stored(After(events), id).value;
    if Stored(After(before), id) == Some(job) {
      SpamRecordWasWritten(before, id);
      var m :| WroteRecord(before, m, id, job.verdict.value, job.notified);
      RecordStands(events, m, id, job.verdict.value, job.notified);
    } else {
      OnlyCompletionsWriteSpam(After(before).value, events[last], id);
      JustWritten(events, id, job.verdict.value, job.notified);
    }
  }

  lemma RecordStands(events: seq<Event>, m: int, id: AccountId, verdict: Verdict, notified: bool)
    requires events != [] && WroteRecord(events[..|events| - 1], m, id, verdict, notified)
    requires Stored(After(events), id) == Stored(After(events[..|events| - 1]), id)
    ensures WroteRecord(events, m, id, verdict, notified)
  {
    var before := events[..|events| - 1];
    assert before[..m] == events[..m];
    forall k | m < k <= |events| ensures Stored(After(events[..k]), id) == Stored(After(events), id) {
      if k < |events| {
        assert before[..k] == events[..k];
      } else {
        assert events[..k] == events;
      }
    }
  }

  lemma JustWritten(events: seq<Event>, id: AccountId, verdict: Verdict, notified: bool)
    requires events != [] && events[|events| - 1].Check? && events[|events| - 1].id == id
    requires CompletesAsSpam(After(events[..|events| - 1]), id, verdict, notified)
    ensures WroteRecord(events, |events| - 1, id, verdict, notified)
  {
    assert events[..|events|] == events;
  }

  /**
   Over every history, a record that calls an account spam was written by a check, and has stood since,
   that tells the truth: it says notified if and only if a send of the very verdict it holds returned
   success in that check, and, unless a moderator had decided by then, if and only if the run of that
   check notifies.
   */
  lemma {:induction false} RecordIsTruthful(events: seq<Event>, id: AccountId)
    requires IsSpam(Stored(After(events), id))
    ensures var job := Stored(After(events), id).value;
            && job.verdict.Some? && job.verdict.value.spam
            && (if job.notified then WasDelivered(events, id, job.verdict.value)
                else WasJudgedSilently(events, id, job.verdict.value) || HasTerminalFeedback(After(events).value.redis, id))
            && exists m :: WroteRecord(events, m, id, job.verdict.value, job.notified)
                           && TellsTheTruth(events[..m], After(events[..m]).value, id, job.verdict.value, job.notified)
  {
    SpamIsAccountedFor(events, id);
    SpamRecordWasWritten(events, id);
    var job := Stored(After(events), id).value;
    var m :| WroteRecord(events, m, id, job.verdict.value, job.notified);
    CompletionTellsItsCheck(events[..m], id, job.verdict.value, job.notified);
  }
}
