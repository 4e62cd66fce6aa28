/**
 One account's check from end to end (src/check.rs, `check_one`): what it leaves, case by case, when
 nothing interferes and every command is answered. The state machine of `Worker`, driven to its end, and
 the procedure that sends the commands of `StateStore` are both proved to leave exactly that.
 */
module Checks {
  import opened Wrappers
  import opened Accounts
  import opened Redis
  import opened StateStores
  import W = Worker

  /**
   What the outside world makes of a check: its judgement, the button a moderator presses just before
   the claim, if any, and whether a delivery succeeds.
   */
  datatype Surroundings = Surroundings(judgement: W.Input, press: Option<JobStatus>, delivered: bool) {
    predicate Valid() {
      && (judgement.Broken? || judgement.Unusable? || judgement.Judged?)
      && (press.Some? ==> press.value == FalsePositive || press.value == ConfirmedSpam)
    }
  }

  // ---------------------------------------------------------------------------------------------
  // What a check leaves

  /** The record of the account is this one, kept and queued for a retry if Failed, expiring in 90 days and unqueued if not. */
  predicate Leaves(r: State, now: nat, id: AccountId, job: Job, r': State) {
    && r'.jobs == r.jobs[id := StoredJob(job, if job.status == Failed then None else Some(now + 7_776_000_000))]
    && r'.failed == (if job.status == Failed then r.failed + {id} else r.failed - {id})
    && r'.pending == r.pending - {id}
    && r'.cursor == r.cursor
  }

  predicate KeepsVerdicts(r: State, r': State) {
    r'.feedback == r.feedback && r'.claims == r.claims
  }

  /** A notification is owed for that record. */
  predicate Notifies(r: State, now: nat, id: AccountId, job: Job, verdict: Verdict, campaign: seq<AccountId>, world: Surroundings, r': State, ok: bool) {
    var failed := Job(Failed, job.attempts, now / 1_000, Some(verdict), job.notified, true, campaign);
    if id in r.claims && now < r.claims[id].expiry then
      !ok && Leaves(r, now, id, failed, r') && KeepsVerdicts(r, r')
    else if world.press.Some? then
      && ok && Leaves(r, now, id, Job(Spam, job.attempts, now / 1_000, Some(verdict), false, false, campaign), r')
      && r'.feedback == r.feedback[id := world.press.value] && r'.claims == r.claims
    else if id in r.feedback then
      !ok && Leaves(r, now, id, failed, r') && KeepsVerdicts(r, r')
    else
      && r'.feedback == r.feedback && r'.claims == r.claims - {id} && ok == world.delivered
      && Leaves(r, now, id, if ok then Job(Spam, job.attempts, now / 1_000, Some(verdict), true, false, campaign) else failed, r')
  }

  /** The account is looked at afresh, for the `attempts`th time. */
  predicate Judges(r: State, now: nat, kind: W.RunKind, id: AccountId, attempts: nat, world: Surroundings, r': State, ok: bool) {
    match world.judgement
    case Broken =>
      !ok && Leaves(r, now, id, Job(Failed, attempts, now / 1_000, None, false, true, []), r') && KeepsVerdicts(r, r')
    case Unusable(campaign) =>
      ok && Leaves(r, now, id, Job(Undetermined, attempts, now / 1_000, None, false, false, campaign), r') && KeepsVerdicts(r, r')
    case Judged(verdict, campaign) =>
      if !verdict.spam then ok && Leaves(r, now, id, Job(NotSpam, attempts, now / 1_000, Some(verdict), false, false, campaign), r') && KeepsVerdicts(r, r')
      else if kind == W.Backfill(false) then ok && Leaves(r, now, id, Job(Spam, attempts, now / 1_000, Some(verdict), false, false, campaign), r') && KeepsVerdicts(r, r')
      else Notifies(r, now, id, Job(Processing, attempts, now / 1_000, None, false, false, []), verdict, campaign, world, r', ok)
    case other => false
  }

  /** The courses a check may take: it ends at once, judges the account, or resends what is owed. */
  datatype Course = EndsAtOnce(ok: bool) | JudgesAfresh(attempts: nat) | Resends(job: Job, verdict: Verdict)

  /** The course, by the account's feedback and the record a command would see. */
  function CourseOf(r: State, now: nat, kind: W.RunKind, account: Account): Course {
    var id := account.id;
    if IsSystemAccount(account) then EndsAtOnce(true)
    else if id in r.feedback && r.feedback[id] in {FalsePositive, ConfirmedSpam} then EndsAtOnce(true)
    else if id !in r.jobs || (r.jobs[id].expiry.Some? && r.jobs[id].expiry.value <= now) then JudgesAfresh(1)
    else
      var job := r.jobs[id].job;
      match job.status
      case Processing => JudgesAfresh(Min(job.attempts + 1, 0xffff_ffff))
      case Failed => JudgesAfresh(Min(job.attempts + 1, 0xffff_ffff))
      case NotificationPending =>
        if kind != W.RetryFailed then EndsAtOnce(true)
        else if job.verdict == None then EndsAtOnce(false)
        else Resends(job, job.verdict.value)
      case other => EndsAtOnce(true)
  }

  /** What a check of the account leaves. */
  predicate Outcome(r: State, now: nat, kind: W.RunKind, account: Account, world: Surroundings, r': State, ok: bool) {
    match CourseOf(r, now, kind, account)
    case EndsAtOnce(well) => ok == well && r' == r
    case JudgesAfresh(attempts) => Judges(r, now, kind, account.id, attempts, world, r', ok)
    case Resends(job, verdict) => Notifies(r, now, account.id, job, verdict, job.campaign, world, r', ok)
  }

  lemma LeavesIsDetermined(r: State, now: nat, id: AccountId, job: Job, a: State, b: State)
    requires Leaves(r, now, id, job, a) && Leaves(r, now, id, job, b) && a.feedback == b.feedback && a.claims == b.claims
    ensures a == b
  {
  }

  lemma NotifiesIsDetermined(r: State, now: nat, id: AccountId, job: Job, verdict: Verdict, campaign: seq<AccountId>, world: Surroundings,
                             a: State, aOk: bool, b: State, bOk: bool)
    requires Notifies(r, now, id, job, verdict, campaign, world, a, aOk) && Notifies(r, now, id, job, verdict, campaign, world, b, bOk)
    ensures a == b && aOk == bOk
  {
    assert aOk == bOk;
    assert a.feedback == b.feedback && a.claims == b.claims;
    assert exists j :: Leaves(r, now, id, j, a) && Leaves(r, now, id, j, b) by {
      var failed := Job(Failed, job.attempts, now / 1_000, Some(verdict), job.notified, true, campaign);
      var silent := Job(Spam, job.attempts, now / 1_000, Some(verdict), false, false, campaign);
      var told := Job(Spam, job.attempts, now / 1_000, Some(verdict), true, false, campaign);
      assert Leaves(r, now, id, failed, a) || Leaves(r, now, id, silent, a) || Leaves(r, now, id, told, a);
    }
    var j :| Leaves(r, now, id, j, a) && Leaves(r, now, id, j, b);
    LeavesIsDetermined(r, now, id, j, a, b);
  }

  lemma JudgesIsDetermined(r: State, now: nat, kind: W.RunKind, id: AccountId, attempts: nat, world: Surroundings, a: State, aOk: bool, b: State, bOk: bool)
    requires Judges(r, now, kind, id, attempts, world, a, aOk) && Judges(r, now, kind, id, attempts, world, b, bOk)
    ensures a == b && aOk == bOk
  {
    match world.judgement {
      case Judged(verdict, campaign) =>
        if verdict.spam && kind != W.Backfill(false) {
          NotifiesIsDetermined(r, now, id, Job(Processing, attempts, now / 1_000, None, false, false, []), verdict, campaign, world, a, aOk, b, bOk);
        }
      case other =>
    }
  }

  /** The cases leave no choice. */
  lemma OutcomeIsDetermined(r: State, now: nat, kind: W.RunKind, account: Account, world: Surroundings, a: State, aOk: bool, b: State, bOk: bool)
    requires Outcome(r, now, kind, account, world, a, aOk) && Outcome(r, now, kind, account, world, b, bOk)
    ensures a == b && aOk == bOk
  {
    match CourseOf(r, now, kind, account) {
      case EndsAtOnce(_) =>
      case JudgesAfresh(attempts) => JudgesIsDetermined(r, now, kind, account.id, attempts, world, a, aOk, b, bOk);
      case Resends(job, verdict) => NotifiesIsDetermined(r, now, account.id, job, verdict, job.campaign, world, a, aOk, b, bOk);
    }
  }

  /** The course, as a check finds it by the commands it sends. */
  lemma CourseByRecord(r: State, now: nat, kind: W.RunKind, account: Account)
    requires !IsSystemAccount(account) && !HasTerminalFeedback(r, account.id)
    ensures var job := GetJob(r, now, account.id);
            CourseOf(r, now, kind, account) ==
              if job.None? then JudgesAfresh(1)
              else if job.value.status.NotificationPending? then
                if kind != W.RetryFailed then EndsAtOnce(true)
                else if job.value.verdict == None then EndsAtOnce(false)
                else Resends(job.value, job.value.verdict.value)
              else if job.value.status.IsCompleted() then EndsAtOnce(true)
              else JudgesAfresh(Min(job.value.attempts + 1, 0xffff_ffff))
  {
  }

  // ---------------------------------------------------------------------------------------------
  // The state machine

  /** What comes next for a check that nothing interferes with. */
  function NextInput(phase: W.Phase, world: Surroundings): W.Input {
    match phase
    case Start => W.Begin
    case Judge(_) => world.judgement
    case HoldsClaim(_, _, _) => W.SendBegins
    case Sending(_, _, _, _) => W.SendEnds(world.delivered)
    case other => W.Command(W.Answered)
  }

  /** What happens meanwhile. */
  function Meanwhile(r: State, now: nat, id: AccountId, phase: W.Phase, world: Surroundings): State {
    if phase.Claiming? && world.press.Some? then RecordFeedback(r, now, id, world.press.value).0 else r
  }

  /** A check on its own, after so many steps at one instant. */
  function Alone(r: State, now: nat, kind: W.RunKind, process: nat, account: Account, world: Surroundings, phase: W.Phase, steps: nat): (State, W.Phase)
    decreases steps
  {
    var next := W.Step(Meanwhile(r, now, account.id, phase, world), now, kind, process, account, phase, NextInput(phase, world));
    if steps == 0 || next.None? then (r, phase)
    else Alone(next.value.0, now, kind, process, account, world, next.value.1, steps - 1)
  }

  lemma DoneStays(r: State, now: nat, kind: W.RunKind, process: nat, account: Account, world: Surroundings, ok: bool, steps: nat)
    ensures Alone(r, now, kind, process, account, world, W.Done(ok), steps) == (r, W.Done(ok))
  {
  }

  lemma FailureEnds(r: State, now: nat, kind: W.RunKind, process: nat, account: Account, world: Surroundings, job: Job, steps: nat)
    requires steps >= 2
    ensures Alone(r, now, kind, process, account, world, W.FailRead(job), steps)
         == (WriteJob(r, now, account.id, FailedRecord(job, GetJob(r, now, account.id), now), Queue), W.Done(false))
  {
    var stored := GetJob(r, now, account.id);
    var failed := WriteJob(r, now, account.id, FailedRecord(job, stored, now), Queue);
    assert W.Step(r, now, kind, process, account, W.FailRead(job), W.Command(W.Answered)) == Some((r, W.FailWrite(job, stored)));
    assert W.Step(r, now, kind, process, account, W.FailWrite(job, stored), W.Command(W.Answered)) == Some((failed, W.Done(false)));
    DoneStays(failed, now, kind, process, account, world, false, steps - 2);
    assert Alone(r, now, kind, process, account, world, W.FailWrite(job, stored), steps - 1) == (failed, W.Done(false));
  }

  lemma CompletionEnds(r: State, now: nat, kind: W.RunKind, process: nat, account: Account, world: Surroundings,
                       job: Job, status: JobStatus, verdict: Option<Verdict>, notified: bool, campaign: seq<AccountId>, steps: nat)
    requires steps >= 1
    ensures Alone(r, now, kind, process, account, world, W.Completing(job, status, verdict, notified, campaign), steps)
         == (WriteJob(r, now, account.id, CompletedRecord(job, status, verdict, notified, campaign, now), Clear), W.Done(true))
  {
    var done := WriteJob(r, now, account.id, CompletedRecord(job, status, verdict, notified, campaign, now), Clear);
    DoneStays(done, now, kind, process, account, world, true, steps - 1);
  }

  /** The stored record of a notification that is owed. */
  predicate IsOwed(r: State, now: nat, id: AccountId, report: W.Report) {
    && GetJob(r, now, id).Some?
    && GetJob(r, now, id).value.verdict == Some(report.verdict) && GetJob(r, now, id).value.campaign == report.campaign
  }

  /** A refused claim ends in a failure that keeps the verdict. */
  lemma RefusalEnds(r: State, now: nat, kind: W.RunKind, process: nat, account: Account, world: Surroundings, report: W.Report, steps: nat)
    requires steps >= 4 && IsOwed(r, now, account.id, report) && !HasTerminalFeedback(r, account.id)
    requires Claimed(r, now, account.id) || (world.press.None? && account.id in r.feedback)
    ensures var end := Alone(r, now, kind, process, account, world, W.Claiming(report), steps);
            end.1.Done? && Notifies(r, now, account.id, report.job, report.verdict, report.campaign, world, end.0, end.1.ok)
  {
    assert Meanwhile(r, now, account.id, W.Claiming(report), world) == r;
    assert Alone(r, now, kind, process, account, world, W.Claiming(report), steps)
        == Alone(r, now, kind, process, account, world, W.CheckSuppressed(report), steps - 1);
    assert Alone(r, now, kind, process, account, world, W.CheckSuppressed(report), steps - 1)
        == Alone(r, now, kind, process, account, world, W.FailRead(report.job), steps - 2);
    FailureEnds(r, now, kind, process, account, world, report.job, steps - 2);
  }

  /** A press just before the claim suppresses the notification, and the check completes without one. */
  lemma SuppressionEnds(r: State, now: nat, kind: W.RunKind, process: nat, account: Account, world: Surroundings, report: W.Report, steps: nat)
    requires steps >= 3 && IsOwed(r, now, account.id, report) && world.Valid()
    requires !Claimed(r, now, account.id) && world.press.Some?
    ensures var end := Alone(r, now, kind, process, account, world, W.Claiming(report), steps);
            end.1.Done? && Notifies(r, now, account.id, report.job, report.verdict, report.campaign, world, end.0, end.1.ok)
  {
    var pressed := RecordFeedback(r, now, account.id, world.press.value).0;
    assert Meanwhile(r, now, account.id, W.Claiming(report), world) == pressed;
    assert Alone(r, now, kind, process, account, world, W.Claiming(report), steps)
        == Alone(pressed, now, kind, process, account, world, W.CheckSuppressed(report), steps - 1);
    assert Alone(pressed, now, kind, process, account, world, W.CheckSuppressed(report), steps - 1)
        == Alone(pressed, now, kind, process, account, world, W.Completing(report.job, Spam, Some(report.verdict), false, report.campaign), steps - 2);
    CompletionEnds(pressed, now, kind, process, account, world, report.job, Spam, Some(report.verdict), false, report.campaign, steps - 2);
  }

  /** A granted claim ends, after the send and the release, in a completion or in a failure. */
  lemma DeliveryEnds(r: State, now: nat, kind: W.RunKind, process: nat, account: Account, world: Surroundings, report: W.Report, steps: nat)
    requires steps >= 6 && IsOwed(r, now, account.id, report) && world.press.None?
    requires account.id !in r.feedback && !Claimed(r, now, account.id)
    ensures var end := Alone(r, now, kind, process, account, world, W.Claiming(report), steps);
            end.1.Done? && Notifies(r, now, account.id, report.job, report.verdict, report.campaign, world, end.0, end.1.ok)
  {
    var id := account.id;
    var token := ClaimToken(process, Seconds(now));
    var released := ReleaseClaim(ClaimNotification(r, now, id, token).0, now, id, token);
    assert released == r.(claims := r.claims - {id});
    ClaimIsHeld(r, now, kind, process, account, world, report, token, steps);
    if world.delivered {
      CompletionEnds(released, now, kind, process, account, world, report.job, Spam, Some(report.verdict), true, report.campaign, steps - 4);
    } else {
      FailureEnds(released, now, kind, process, account, world, report.job, steps - 4);
    }
  }

  lemma ClaimIsHeld(r: State, now: nat, kind: W.RunKind, process: nat, account: Account, world: Surroundings, report: W.Report, token: ClaimToken, steps: nat)
    requires steps >= 6 && token == ClaimToken(process, Seconds(now)) && ClaimNotification(r, now, account.id, token).1 && world.press.None?
    ensures var claimed := ClaimNotification(r, now, account.id, token).0;
            var released := ReleaseClaim(claimed, now, account.id, token);
            var next := if world.delivered then W.Completing(report.job, Spam, Some(report.verdict), true, report.campaign) else W.FailRead(report.job);
            Alone(r, now, kind, process, account, world, W.Claiming(report), steps)
            == Alone(released, now, kind, process, account, world, next, steps - 4)
  {
    var id := account.id;
    var claimed := ClaimNotification(r, now, id, token).0;
    assert Alone(r, now, kind, process, account, world, W.Claiming(report), steps)
        == Alone(claimed, now, kind, process, account, world, W.HoldsClaim(report, token, now), steps - 1);
    assert Alone(claimed, now, kind, process, account, world, W.HoldsClaim(report, token, now), steps - 1)
        == Alone(claimed, now, kind, process, account, world, W.Sending(report, token, now, now), steps - 2);
    assert Alone(claimed, now, kind, process, account, world, W.Sending(report, token, now, now), steps - 2)
        == Alone(claimed, now, kind, process, account, world, W.ReleasingClaim(report, token, world.delivered), steps - 3);
  }

  lemma NotificationEnds(r: State, now: nat, kind: W.RunKind, process: nat, account: Account, world: Surroundings, report: W.Report, steps: nat)
    requires steps >= 6 && IsOwed(r, now, account.id, report) && !HasTerminalFeedback(r, account.id) && world.Valid()
    ensures var end := Alone(r, now, kind, process, account, world, W.Claiming(report), steps);
            end.1.Done? && Notifies(r, now, account.id, report.job, report.verdict, report.campaign, world, end.0, end.1.ok)
  {
    if Claimed(r, now, account.id) || (world.press.None? && account.id in r.feedback) {
      RefusalEnds(r, now, kind, process, account, world, report, steps);
    } else if world.press.Some? {
      SuppressionEnds(r, now, kind, process, account, world, report, steps);
    } else {
      DeliveryEnds(r, now, kind, process, account, world, report, steps);
    }
  }

  function Begun(attempts: nat, now: nat): Job {
    Job(Processing, attempts, Seconds(now), None, false, false, [])
  }

  /** The state in which the notification of a new verdict is owed. */
  function Owing(r: State, now: nat, id: AccountId, report: W.Report): State {
    WriteClassification(SetJob(r, now, id, report.job), now, id, PendingRecord(report.job, report.verdict, report.campaign, now))
  }

  /** What a notification leaves does not depend on the record or the pending entry of the account. */
  lemma NotifiesAfterWrite(r: State, owing: State, now: nat, id: AccountId, job: Job, verdict: Verdict, campaign: seq<AccountId>,
                           world: Surroundings, r': State, ok: bool)
    requires id in owing.jobs && owing == r.(jobs := r.jobs[id := owing.jobs[id]], pending := owing.pending)
    requires owing.pending - {id} == r.pending - {id}
    requires Notifies(owing, now, id, job, verdict, campaign, world, r', ok)
    ensures Notifies(r, now, id, job, verdict, campaign, world, r', ok)
  {
    forall j | Leaves(owing, now, id, j, r') ensures Leaves(r, now, id, j, r') {
    }
  }

  lemma SpamIsClassified(r: State, now: nat, kind: W.RunKind, process: nat, account: Account, world: Surroundings, report: W.Report, steps: nat)
    requires steps >= 2 && report.job == Begun(report.job.attempts, now)
    ensures Alone(SetJob(r, now, account.id, report.job), now, kind, process, account, world, W.ClassifyRead(report), steps)
         == Alone(Owing(r, now, account.id, report), now, kind, process, account, world, W.Claiming(report), steps - 2)
  {
    var begun := SetJob(r, now, account.id, report.job);
    assert Alone(begun, now, kind, process, account, world, W.ClassifyRead(report), steps)
        == Alone(begun, now, kind, process, account, world, W.ClassifyWrite(report, report.job), steps - 1);
  }

  lemma SpamEnds(r: State, now: nat, kind: W.RunKind, process: nat, account: Account, world: Surroundings, report: W.Report, steps: nat)
    requires steps >= 8 && world.Valid() && !HasTerminalFeedback(r, account.id) && report.job == Begun(report.job.attempts, now)
    ensures var end := Alone(SetJob(r, now, account.id, report.job), now, kind, process, account, world, W.ClassifyRead(report), steps);
            end.1.Done? && Notifies(r, now, account.id, report.job, report.verdict, report.campaign, world, end.0, end.1.ok)
  {
    var id, owing := account.id, Owing(r, now, account.id, report);
    SpamIsClassified(r, now, kind, process, account, world, report, steps);
    NotificationEnds(owing, now, kind, process, account, world, report, steps - 2);
    var end := Alone(owing, now, kind, process, account, world, W.Claiming(report), steps - 2);
    assert owing.pending - {id} == r.pending - {id};
    assert owing.jobs == r.jobs[id := owing.jobs[id]];
    NotifiesAfterWrite(r, owing, now, id, report.job, report.verdict, report.campaign, world, end.0, end.1.ok);
  }

  lemma FailureLeaves(r: State, now: nat, id: AccountId, attempts: nat)
    ensures var begun := SetJob(r, now, id, Begun(attempts, now));
            var left := WriteJob(begun, now, id, FailedRecord(Begun(attempts, now), GetJob(begun, now, id), now), Queue);
            Leaves(r, now, id, Job(Failed, attempts, now / 1_000, None, false, true, []), left) && KeepsVerdicts(r, left)
  {
  }

  lemma CompletionLeaves(r: State, now: nat, id: AccountId, attempts: nat, status: JobStatus, verdict: Option<Verdict>, campaign: seq<AccountId>)
    requires status in {Spam, NotSpam, Undetermined}
    ensures var begun := SetJob(r, now, id, Begun(attempts, now));
            var left := WriteJob(begun, now, id, CompletedRecord(Begun(attempts, now), status, verdict, false, campaign, now), Clear);
            Leaves(r, now, id, Job(status, attempts, now / 1_000, verdict, false, false, campaign), left) && KeepsVerdicts(r, left)
  {
  }

  lemma JudgementEnds(r: State, now: nat, kind: W.RunKind, process: nat, account: Account, world: Surroundings, attempts: nat, steps: nat)
    requires steps >= 9 && world.Valid() && !HasTerminalFeedback(r, account.id)
    ensures var job := Begun(attempts, now);
            var end := Alone(SetJob(r, now, account.id, job), now, kind, process, account, world, W.Judge(job), steps);
            end.1.Done? && Judges(r, now, kind, account.id, attempts, world, end.0, end.1.ok)
  {
    var id, job := account.id, Begun(attempts, now);
    var begun := SetJob(r, now, id, job);
    match world.judgement {
      case Broken =>
        FailureEnds(begun, now, kind, process, account, world, job, steps - 1);
        FailureLeaves(r, now, id, attempts);
      case Unusable(campaign) =>
        CompletionEnds(begun, now, kind, process, account, world, job, Undetermined, None, false, campaign, steps - 1);
        CompletionLeaves(r, now, id, attempts, Undetermined, None, campaign);
      case Judged(verdict, campaign) =>
        VerdictEnds(r, now, kind, process, account, world, attempts, verdict, campaign, steps);
    }
  }

  lemma VerdictEnds(r: State, now: nat, kind: W.RunKind, process: nat, account: Account, world: Surroundings, attempts: nat,
                    verdict: Verdict, campaign: seq<AccountId>, steps: nat)
    requires steps >= 9 && world.Valid() && world.judgement == W.Judged(verdict, campaign) && !HasTerminalFeedback(r, account.id)
    ensures var job := Begun(attempts, now);
            var end := Alone(SetJob(r, now, account.id, job), now, kind, process, account, world, W.Judge(job), steps);
            end.1.Done? && Judges(r, now, kind, account.id, attempts, world, end.0, end.1.ok)
  {
    var id, job := account.id, Begun(attempts, now);
    var begun := SetJob(r, now, id, job);
    if verdict.spam && kind != W.Backfill(false) {
      SpamEnds(r, now, kind, process, account, world, W.Report(job, verdict, campaign, false), steps - 1);
    } else {
      var status := if verdict.spam then Spam else NotSpam;
      CompletionEnds(begun, now, kind, process, account, world, job, status, Some(verdict), false, campaign, steps - 1);
      CompletionLeaves(r, now, id, attempts, status, Some(verdict), campaign);
    }
  }

  /** A check that finds nothing final begins a record and comes to its judgement. */
  lemma FreshCheckEnds(r: State, now: nat, kind: W.RunKind, process: nat, account: Account, world: Surroundings, steps: nat)
    requires steps >= 11 && world.Valid() && !HasTerminalFeedback(r, account.id)
    ensures var stored := GetJob(r, now, account.id);
            var attempts := if stored.None? then 1 else Min(stored.value.attempts + 1, 0xffff_ffff);
            var end := Alone(r, now, kind, process, account, world, W.BeginRead, steps);
            end.1.Done? && Judges(r, now, kind, account.id, attempts, world, end.0, end.1.ok)
  {
    var stored := GetJob(r, now, account.id);
    var attempts := if stored.None? then 1 else Min(stored.value.attempts + 1, 0xffff_ffff);
    var job := Begun(attempts, now);
    assert Alone(r, now, kind, process, account, world, W.BeginRead, steps)
        == Alone(r, now, kind, process, account, world, W.BeginWrite(job), steps - 1);
    assert Alone(r, now, kind, process, account, world, W.BeginWrite(job), steps - 1)
        == Alone(SetJob(r, now, account.id, job), now, kind, process, account, world, W.Judge(job), steps - 2);
    JudgementEnds(r, now, kind, process, account, world, attempts, steps - 2);
  }

  lemma RecordDecides(r: State, now: nat, kind: W.RunKind, process: nat, account: Account, world: Surroundings, steps: nat)
    requires steps >= 12 && world.Valid() && !IsSystemAccount(account) && !HasTerminalFeedback(r, account.id)
    ensures var end := Alone(r, now, kind, process, account, world, W.ReadRecord, steps);
            end.1.Done? && Outcome(r, now, kind, account, world, end.0, end.1.ok)
  {
    var next := W.AfterRecord(GetJob(r, now, account.id), kind);
    RecordIsRead(r, now, kind, process, account, world, steps);
    CourseByRecord(r, now, kind, account);
    if next.BeginRead? {
      FreshCheckEnds(r, now, kind, process, account, world, steps - 1);
    } else if next.Claiming? {
      NotificationEnds(r, now, kind, process, account, world, next.report, steps - 1);
    } else {
      DoneStays(r, now, kind, process, account, world, next.ok, steps - 1);
    }
  }

  lemma RecordIsRead(r: State, now: nat, kind: W.RunKind, process: nat, account: Account, world: Surroundings, steps: nat)
    requires steps >= 1
    ensures Alone(r, now, kind, process, account, world, W.ReadRecord, steps)
         == Alone(r, now, kind, process, account, world, W.AfterRecord(GetJob(r, now, account.id), kind), steps - 1)
  {
  }

  /** On its own and with every command answered, the check of the state machine ends and leaves what the cases say. */
  lemma CheckLeavesItsOutcome(r: State, now: nat, kind: W.RunKind, process: nat, account: Account, world: Surroundings, steps: nat)
    requires steps >= 14 && world.Valid()
    ensures var end := Alone(r, now, kind, process, account, world, W.Start, steps);
            end.1.Done? && Outcome(r, now, kind, account, world, end.0, end.1.ok)
  {
    var id := account.id;
    if IsSystemAccount(account) {
      DoneStays(r, now, kind, process, account, world, true, steps - 1);
    } else {
      assert Alone(r, now, kind, process, account, world, W.Start, steps)
          == Alone(r, now, kind, process, account, world, W.ReadFeedback, steps - 1);
      if HasTerminalFeedback(r, id) {
        DoneStays(r, now, kind, process, account, world, true, steps - 2);
      } else {
        assert Alone(r, now, kind, process, account, world, W.ReadFeedback, steps - 1)
            == Alone(r, now, kind, process, account, world, W.ReadRecord, steps - 2);
        RecordDecides(r, now, kind, process, account, world, steps - 2);
      }
    }
  }

  /** Where a command that got no answer leaves the check: at the recording of a failure, or at its end. */
  predicate Unanswered(phase: W.Phase, next: W.Phase) {
    match phase
    case ClassifyRead(report) => next == W.FailRead(report.job)
    case ClassifyWrite(report, _) => next == W.FailRead(report.job)
    case Claiming(report) => next == W.FailRead(report.job)
    case CheckSuppressed(report) => next == W.FailRead(report.job)
    case ReleasingClaim(report, _, true) => next == W.Completing(report.job, Spam, Some(report.verdict), true, report.campaign)
    case ReleasingClaim(report, _, false) => next == W.FailRead(report.job)
    case other => next == W.Done(false)
  }

  /**
   A command without an answer takes effect as if answered, or not at all. The check then goes on to
   record a failure once a verdict is there, fails at once otherwise, and takes no notice of a lost release.
   */
  lemma CommandsMayGoUnanswered(r: State, now: nat, kind: W.RunKind, process: nat, account: Account, phase: W.Phase, reply: W.Reply)
    requires reply != W.Answered && W.Step(r, now, kind, process, account, phase, W.Command(W.Answered)).Some?
    ensures var next := W.Step(r, now, kind, process, account, phase, W.Command(reply));
            && next.Some?
            && next.value.0 == (if reply == W.NotSent then r else W.Step(r, now, kind, process, account, phase, W.Command(W.Answered)).value.0)
            && Unanswered(phase, next.value.1)
  {
  }

  // ---------------------------------------------------------------------------------------------
  // The procedure

  datatype Notice = Sent | Suppressed | NotSent

  /** `notify_with_claim`, where notifications go out, and a moderator's press just before it. */
  method NotifyWithClaim(store: StateStore, now: nat, id: AccountId, process: nat, world: Surroundings) returns (notice: Notice)
    requires GetJob(store.Contents(), now, id).Some? && !HasTerminalFeedback(store.Contents(), id) && world.Valid()
    modifies store
    ensures var r, r' := old(store.Contents()), store.Contents();
            if Claimed(r, now, id) then notice == NotSent && r' == r
            else if world.press.Some? then
              && notice == Suppressed
              && r' == r.(feedback := r.feedback[id := world.press.value], failed := r.failed - {id}, pending := r.pending - {id})
            else if id in r.feedback then notice == NotSent && r' == r
            else notice == (if world.delivered then Sent else NotSent) && r' == r.(claims := r.claims - {id})
  {
    if world.press.Some? {
      var reply := store.RecordFeedback(now, id, world.press.value);
    }
    var token := store.ClaimNotification(now, id, process);
    if token.None? {
      return if id in store.feedback && (store.feedback[id] == FalsePositive || store.feedback[id] == ConfirmedSpam) then Suppressed else NotSent;
    }
    store.ReleaseNotificationClaim(now, id, token.value);
    notice := if world.delivered then Sent else NotSent;
  }

  /** What becomes of the record, once the notification has been sent, suppressed or given up. */
  method RecordNotice(store: StateStore, now: nat, id: AccountId, job: Job, notice: Notice, verdict: Verdict, campaign: seq<AccountId>) returns (ok: bool)
    requires IsOwed(store.Contents(), now, id, W.Report(job, verdict, campaign, false))
    modifies store
    ensures ok <==> notice != NotSent
    ensures Leaves(old(store.Contents()), now, id,
                   if ok then Job(Spam, job.attempts, now / 1_000, Some(verdict), notice == Sent, false, campaign)
                   else Job(Failed, job.attempts, now / 1_000, Some(verdict), job.notified, true, campaign), store.Contents())
    ensures KeepsVerdicts(old(store.Contents()), store.Contents())
  {
    match notice {
      case Sent =>
        store.CompleteJob(now, id, job, Spam, Some(verdict), true, campaign);
        ok := true;
      case Suppressed =>
        store.CompleteJob(now, id, job, Spam, Some(verdict), false, campaign);
        ok := true;
      case NotSent =>
        store.FailJob(now, id, job);
        ok := false;
    }
  }

  /** `retry_pending_notification`. */
  method RetryPendingNotification(store: StateStore, now: nat, id: AccountId, process: nat, job: Job, world: Surroundings) returns (ok: bool)
    requires GetJob(store.Contents(), now, id) == Some(job) && !HasTerminalFeedback(store.Contents(), id) && world.Valid()
    modifies store
    ensures if job.verdict == None then !ok && store.Contents() == old(store.Contents())
            else Notifies(old(store.Contents()), now, id, job, job.verdict.value, job.campaign, world, store.Contents(), ok)
  {
    if job.verdict.None? {
      return false;
    }
    var notice := NotifyWithClaim(store, now, id, process, world);
    ok := RecordNotice(store, now, id, job, notice, job.verdict.value, job.campaign);
  }

  /** `report_spam`, and what `check_one` makes of its result. */
  method ReportSpam(store: StateStore, now: nat, kind: W.RunKind, id: AccountId, process: nat, job: Job,
                    verdict: Verdict, campaign: seq<AccountId>, world: Surroundings) returns (ok: bool)
    requires GetJob(store.Contents(), now, id) == Some(job) && !HasTerminalFeedback(store.Contents(), id) && world.Valid()
    requires job == Begun(job.attempts, now)
    modifies store
    ensures if kind == W.Backfill(false) then
              && ok && KeepsVerdicts(old(store.Contents()), store.Contents())
              && Leaves(old(store.Contents()), now, id, Job(Spam, job.attempts, now / 1_000, Some(verdict), false, false, campaign), store.Contents())
            else Notifies(old(store.Contents()), now, id, job, verdict, campaign, world, store.Contents(), ok)
  {
    if kind == W.Backfill(false) {
      store.CompleteJob(now, id, job, Spam, Some(verdict), false, campaign);
      return true;
    }
    ghost var r := store.Contents();
    ghost var report := W.Report(job, verdict, campaign, false);
    var classified := store.RecordClassification(now, id, NotificationPending, verdict, campaign);
    ghost var owing := store.Contents();
    assert owing.jobs == r.jobs[id := owing.jobs[id]];
    var notice := NotifyWithClaim(store, now, id, process, world);
    ok := RecordNotice(store, now, id, job, notice, verdict, campaign);
    assert Notifies(owing, now, id, job, verdict, campaign, world, store.Contents(), ok);
    NotifiesAfterWrite(r, owing, now, id, job, verdict, campaign, world, store.Contents(), ok);
  }

  /** `check_one_inner`, and what `check_one` makes of its result. */
  method JudgeAccount(store: StateStore, now: nat, kind: W.RunKind, id: AccountId, process: nat, job: Job, world: Surroundings) returns (ok: bool)
    requires GetJob(store.Contents(), now, id) == Some(job) && !HasTerminalFeedback(store.Contents(), id) && world.Valid()
    requires job == Begun(job.attempts, now)
    modifies store
    ensures Judges(old(store.Contents()), now, kind, id, job.attempts, world, store.Contents(), ok)
  {
    match world.judgement {
      case Broken =>
        store.FailJob(now, id, job);
        ok := false;
      case Unusable(campaign) =>
        store.CompleteJob(now, id, job, Undetermined, None, false, campaign);
        ok := true;
      case Judged(verdict, campaign) =>
        if !verdict.spam {
          store.CompleteJob(now, id, job, NotSpam, Some(verdict), false, campaign);
          ok := true;
        } else {
          ok := ReportSpam(store, now, kind, id, process, job, verdict, campaign, world);
        }
    }
  }

  /** Nor does what a judgement leaves depend on the record before. */
  lemma JudgesAfterWrite(r: State, begun: State, now: nat, kind: W.RunKind, id: AccountId, attempts: nat, world: Surroundings, r': State, ok: bool)
    requires id in begun.jobs && begun == r.(jobs := r.jobs[id := begun.jobs[id]])
    requires Judges(begun, now, kind, id, attempts, world, r', ok)
    ensures Judges(r, now, kind, id, attempts, world, r', ok)
  {
    forall j | Leaves(begun, now, id, j, r') ensures Leaves(r, now, id, j, r') {
    }
    match world.judgement {
      case Judged(verdict, campaign) =>
        if verdict.spam && kind != W.Backfill(false) {
          NotifiesAfterWrite(r, begun, now, id, Job(Processing, attempts, now / 1_000, None, false, false, []), verdict, campaign, world, r', ok);
        }
      case other =>
    }
  }

  /** The part of `check_one` that begins a record and has the account judged. */
  method CheckAfresh(store: StateStore, now: nat, kind: W.RunKind, id: AccountId, process: nat, world: Surroundings) returns (ok: bool)
    requires world.Valid() && !HasTerminalFeedback(store.Contents(), id)
    modifies store
    ensures var stored := GetJob(old(store.Contents()), now, id);
            Judges(old(store.Contents()), now, kind, id, if stored.None? then 1 else Min(stored.value.attempts + 1, 0xffff_ffff),
                   world, store.Contents(), ok)
  {
    ghost var r := store.Contents();
    var job := store.BeginJob(now, id);
    ghost var begun := store.Contents();
    assert begun.jobs == r.jobs[id := begun.jobs[id]];
    ok := JudgeAccount(store, now, kind, id, process, job, world);
    JudgesAfterWrite(r, begun, now, kind, id, job.attempts, world, store.Contents(), ok);
  }

  /** Whatever has the outcome of a check is what the state machine comes to. */
  lemma MachineAgrees(r: State, now: nat, kind: W.RunKind, process: nat, account: Account, world: Surroundings, r': State, ok: bool)
    requires world.Valid() && Outcome(r, now, kind, account, world, r', ok)
    ensures forall steps: nat :: steps >= 14 ==> Alone(r, now, kind, process, account, world, W.Start, steps) == (r', W.Done(ok))
  {
    forall steps: nat | steps >= 14
      ensures Alone(r, now, kind, process, account, world, W.Start, steps) == (r', W.Done(ok))
    {
      CheckLeavesItsOutcome(r, now, kind, process, account, world, steps);
      var end := Alone(r, now, kind, process, account, world, W.Start, steps);
      OutcomeIsDetermined(r, now, kind, account, world, end.0, end.1.ok, r', ok);
    }
  }

  /** `check_one` past the feedback. */
  method CheckByRecord(store: StateStore, now: nat, kind: W.RunKind, process: nat, account: Account, world: Surroundings) returns (ok: bool)
    requires world.Valid() && !IsSystemAccount(account) && !HasTerminalFeedback(store.Contents(), account.id)
    modifies store
    ensures Outcome(old(store.Contents()), now, kind, account, world, store.Contents(), ok)
  {
    ghost var r := store.Contents();
    var job := store.ReadJob(now, account.id);
    ok := true;
    if job.Some? && job.value.status == NotificationPending {
      if kind.RetriesPending() {
        ok := RetryPendingNotification(store, now, account.id, process, job.value, world);
      }
    } else if job.None? || !job.value.status.IsCompleted() {
      ok := CheckAfresh(store, now, kind, account.id, process, world);
    }
    CourseByRecord(r, now, kind, account);
  }

  /** `check_one`. The check of the state machine, on its own, leaves the same state and ends the same way. */
  method CheckOne(store: StateStore, now: nat, kind: W.RunKind, process: nat, account: Account, world: Surroundings) returns (ok: bool)
    requires world.Valid()
    modifies store
    ensures Outcome(old(store.Contents()), now, kind, account, world, store.Contents(), ok)
    ensures forall steps: nat :: steps >= 14 ==>
              Alone(old(store.Contents()), now, kind, process, account, world, W.Start, steps) == (store.Contents(), W.Done(ok))
  {
    ghost var r := store.Contents();
    if IsSystemAccount(account) {
      ok := true;
    } else if account.id in store.feedback && (store.feedback[account.id] == FalsePositive || store.feedback[account.id] == ConfirmedSpam) {
      ok := true;
    } else {
      ok := CheckByRecord(store, now, kind, process, account, world);
    }
    MachineAgrees(r, now, kind, process, account, world, store.Contents(), ok);
  }
}
