/**
 A completed record is final in every history exactly when no check outlives its run.
 */
module Overwriting {
  import opened Wrappers
  import opened Accounts
  import opened Redis
  import opened System
  import opened AccountInvariants
  import opened SystemSteps
  import opened RetryQueue
  import opened Safety
  import opened Scenario
  import opened Lingering
  import W = Worker

  /** In every history a completed record is read unchanged until its retention ends. */
  ghost predicate RecordsAreFinal(origin: System.State) {
    forall events, n, id, j :: FinalIn(origin, events, n, id, j)
  }

  ghost predicate FinalIn(origin: System.State, events: seq<Event>, n: int, id: AccountId, j: Job) {
    0 <= n <= |events| && Reads(Play(origin, events[..n]), id, j) && j.status.IsCompleted()
    && Play(origin, events).Some? && StillKept(j, Play(origin, events).value.now)
    ==> Reads(Play(origin, events), id, j)
  }

  predicate Reads(s: Option<System.State>, id: AccountId, j: Job) {
    s.Some? && GetJob(s.value.redis, s.value.now, id) == Some(j)
  }

  lemma {:induction false} PlayConcat(origin: System.State, first: seq<Event>, second: seq<Event>, s: System.State)
    requires Play(origin, first) == Some(s)
    ensures Play(origin, first + second) == Play(s, second)
    decreases |second|
  {
    if second == [] {
      assert first + second == first;
    } else {
      PlayConcat(origin, first, second[..|second| - 1], s);
      assert (first + second)[..|first + second| - 1] == first + second[..|second| - 1];
    }
  }

  // ---------------------------------------------------------------------------------------------
  // The history

  /** A check of the account is left over in slot 0, at that phase. */
  predicate LeftAt(s: System.State, account: Account, phase: W.Phase) {
    s.leftovers == map[0 := Run(W.PeriodicCheck, 0, 1, Checking(None, [account], 0, 1, map[account.id := phase]))]
  }

  lemma LeftoverMoves(origin: System.State, s: System.State, account: Account, phase: W.Phase, input: W.Input, r': Redis.State, after: W.Phase)
    requires Leads(origin, s) && LeftAt(s, account, phase)
    requires W.Step(s.redis, s.now, W.PeriodicCheck, 0, account, phase, input) == Some((r', after))
    ensures exists s' :: Leads(origin, s') && LeftAt(s', account, after) && s'.redis == r' && s'.now == s.now
  {
    LeftoverStepIs(s, account, phase, input, r', after);
    Go(origin, s, LeftoverCheck(0, account.id, input));
  }

  lemma LeftoverStepIs(s: System.State, account: Account, phase: W.Phase, input: W.Input, r': Redis.State, after: W.Phase)
    requires LeftAt(s, account, phase)
    requires W.Step(s.redis, s.now, W.PeriodicCheck, 0, account, phase, input) == Some((r', after))
    ensures var next := StepLeftoverCheck(s, 0, account.id, input);
            next.Some? && LeftAt(next.value, account, after) && next.value.redis == r' && next.value.now == s.now
  {
    FindPresent([account], 0);
    var run := s.leftovers[0];
    assert run.stage.workers[account.id := after] == map[account.id := after];
    var run' := run.(stage := run.stage.(workers := map[account.id := after]));
    assert s.leftovers[0 := run'] == map[0 := run'];
  }

  lemma LeftoverBreaks(origin: System.State, s: System.State, account: Account, job: Job)
    requires Leads(origin, s) && LeftAt(s, account, W.Judge(job))
    ensures var stored := GetJob(s.redis, s.now, account.id);
            exists s' :: Leads(origin, s') && LeftAt(s', account, W.FailWrite(job, stored)) && s'.redis == s.redis && s'.now == s.now
  {
    LeftoverMoves(origin, s, account, W.Judge(job), W.Broken, s.redis, W.FailRead(job));
    var s1 :| Leads(origin, s1) && LeftAt(s1, account, W.FailRead(job)) && s1.redis == s.redis && s1.now == s.now;
    LeftoverMoves(origin, s1, account, W.FailRead(job), ANSWERED, s1.redis, W.FailWrite(job, GetJob(s.redis, s.now, account.id)));
  }

  /** A check left over before its verdict, whose lookup then breaks, writes Failed over whatever is there. */
  lemma LeftoverFails(origin: System.State, s: System.State, account: Account, job: Job)
    requires Leads(origin, s) && LeftAt(s, account, W.Judge(job)) && GetJob(s.redis, s.now, account.id).Some?
    ensures exists s' :: Leads(origin, s') && s'.now == s.now
                         && GetJob(s'.redis, s'.now, account.id).Some? && GetJob(s'.redis, s'.now, account.id).value.status.Failed?
                         && account.id in s'.redis.failed
  {
    var stored := GetJob(s.redis, s.now, account.id);
    LeftoverBreaks(origin, s, account, job);
    var s2 :| Leads(origin, s2) && LeftAt(s2, account, W.FailWrite(job, stored)) && s2.redis == s.redis && s2.now == s.now;
    var failed := WriteJob(s.redis, s.now, account.id, FailedRecord(job, stored, s.now), Queue);
    LeftoverMoves(origin, s2, account, W.FailWrite(job, stored), ANSWERED, failed, W.Done(false));
    var s3 :| Leads(origin, s3) && LeftAt(s3, account, W.Done(false)) && s3.redis == failed && s3.now == s.now;
  }

  /** A backfill of the account, from an idle service. */
  lemma BackfillGetsToItsChecks(c: Setting, r: Redis.State, h: History)
    requires c.kind == W.Backfill(false) && c.origin == Idle(c, r, h)
    ensures Stands(c, r, W.Start, None)
  {
    SetOut(c);
    Proceed(c, Idle(c, r, h), StartRun(W.Backfill(false), 0, 1));
    Proceed(c, Running(c, r, h, Listing(None)), FetchRange([c.account]));
    ChunkStarts(c, r, h);
    assert Reaches(c, Checked(c, r, h, W.Start));
  }

  /** The record a backfill leaves that finds nothing wrong with an account still being processed. */
  function Cleared(r: Redis.State, id: AccountId, previous: Job): Redis.State {
    var job := BeginRecord(Some(previous), 0);
    var begun := SetJob(r, 0, id, job);
    WriteJob(begun, 0, id, CompletedRecord(job, NotSpam, Some(Verdict(false, "", 0.0)), false, [], 0), Clear)
  }

  lemma BackfillBegins(c: Setting, r: Redis.State, h: History, previous: Job)
    requires c.kind == W.Backfill(false) && c.origin == Idle(c, r, h) && !IsSystemAccount(c.account)
    requires c.account.id !in r.feedback && GetJob(r, 0, c.account.id) == Some(previous) && previous.status.Processing?
    ensures var job := BeginRecord(Some(previous), 0); Stands(c, r, W.BeginWrite(job), None)
  {
    BackfillGetsToItsChecks(c, r, h);
    MovesTo(c, r, W.Start, None, W.Begin, r, W.ReadFeedback);
    MovesTo(c, r, W.ReadFeedback, None, ANSWERED, r, W.ReadRecord);
    MovesTo(c, r, W.ReadRecord, None, ANSWERED, r, W.BeginRead);
    MovesTo(c, r, W.BeginRead, None, ANSWERED, r, W.BeginWrite(BeginRecord(Some(previous), 0)));
  }

  lemma BackfillJudges(c: Setting, r: Redis.State, h: History, previous: Job)
    requires c.kind == W.Backfill(false) && c.origin == Idle(c, r, h) && !IsSystemAccount(c.account)
    requires c.account.id !in r.feedback && GetJob(r, 0, c.account.id) == Some(previous) && previous.status.Processing?
    ensures var job := BeginRecord(Some(previous), 0); Stands(c, SetJob(r, 0, c.account.id, job), W.Judge(job), None)
  {
    var job := BeginRecord(Some(previous), 0);
    BackfillBegins(c, r, h, previous);
    MovesTo(c, r, W.BeginWrite(job), None, ANSWERED, SetJob(r, 0, c.account.id, job), W.Judge(job));
  }

  lemma BackfillClears(c: Setting, r: Redis.State, h: History, previous: Job)
    requires c.kind == W.Backfill(false) && c.origin == Idle(c, r, h) && !IsSystemAccount(c.account)
    requires c.account.id !in r.feedback && GetJob(r, 0, c.account.id) == Some(previous) && previous.status.Processing?
    ensures Stands(c, Cleared(r, c.account.id, previous), W.Done(true), None)
  {
    var verdict := Verdict(false, "", 0.0);
    var job := BeginRecord(Some(previous), 0);
    var begun := SetJob(r, 0, c.account.id, job);
    var last := W.Completing(job, NotSpam, Some(verdict), false, []);
    BackfillJudges(c, r, h, previous);
    MovesTo(c, begun, W.Judge(job), None, W.Judged(verdict, []), begun, last);
    MovesTo(c, begun, last, None, ANSWERED, Cleared(r, c.account.id, previous), W.Done(true));
  }

  /** A first run loses its lease while it judges the account. */
  lemma JudgingCanBeLeftOver(account: Account, origin: System.State)
    requires origin == Initial(origin.maxReply).(mayLinger := true) && !IsSystemAccount(account)
    ensures var job := BeginRecord(None, 0);
            var begun := SetJob(EMPTY, 0, account.id, job);
            exists h, idle :: Leads(origin, idle) && LeftAt(idle, account, W.Judge(job)) && idle == Idle(Setting(account, W.Backfill(false), idle), begun, h)
  {
    var c := Setting(account, W.PeriodicCheck, origin);
    var job := BeginRecord(None, 0);
    var begun := SetJob(EMPTY, 0, account.id, job);
    CheckComesToJudge(c);
    var h :| Reaches(c, Checked(c, begun, h, W.Judge(job)));
    ReachedIsLed(c, Checked(c, begun, h, W.Judge(job)));
    Go(origin, Checked(c, begun, h, W.Judge(job)), LoseLease(0));
    var idle := Step(Checked(c, begun, h, W.Judge(job)), LoseLease(0)).value;
    assert LeftAt(idle, account, W.Judge(job)) && idle == Idle(Setting(account, W.Backfill(false), idle), begun, h);
  }

  /**
   The history: a run loses its lease with a check under way, a backfill completes the account, and
   the check that was left over writes Failed over the completed record and queues the account.
   */
  lemma LeftoverOverwritesCompleted(account: Account, origin: System.State)
    requires origin == Initial(origin.maxReply).(mayLinger := true) && !IsSystemAccount(account)
    ensures exists s, s' ::
              && Leads(origin, s) && IsCompletedJob(GetJob(s.redis, s.now, account.id)) && s.now == 0
              && Leads(s, s') && GetJob(s'.redis, s'.now, account.id).Some?
              && GetJob(s'.redis, s'.now, account.id).value.status.Failed? && s'.now == 0
              && account.id in s'.redis.failed
  {
    var job := BeginRecord(None, 0);
    var begun := SetJob(EMPTY, 0, account.id, job);
    JudgingCanBeLeftOver(account, origin);
    var h, idle :| Leads(origin, idle) && LeftAt(idle, account, W.Judge(job)) && idle == Idle(Setting(account, W.Backfill(false), idle), begun, h);
    var c := Setting(account, W.Backfill(false), idle);
    BackfillClears(c, begun, h, job);
    var done := Cleared(begun, account.id, job);
    var h' :| Reaches(c, Checked(c, done, h', W.Done(true)));
    var s := Checked(c, done, h', W.Done(true));
    ReachedIsLed(c, s);
    LeadsOn(origin, idle, s);
    Stay(s);
    LeftoverFails(s, s, account, job);
  }

  lemma LeadsOn(a: System.State, b: System.State, c: System.State)
    requires Leads(a, b) && Leads(b, c)
    ensures Leads(a, c)
  {
    var first :| Play(a, first) == Some(b);
    var second :| Play(b, second) == Some(c);
    PlayConcat(a, first, second, b);
  }

  /** Completed records are final in every history if and only if no check may outlive its run. */
  lemma {:induction false} RecordsAreFinalIffNothingLingers(mayLinger: bool)
    ensures RecordsAreFinal(Origin(CLAIM_REPLY_MAX, mayLinger)) <==> !mayLinger
  {
    var origin := Origin(CLAIM_REPLY_MAX, mayLinger);
    if mayLinger {
      var account := Account(1, "someone", Some("example.org"));
      LeftoverOverwritesCompleted(account, origin);
      var s, s' :| Leads(origin, s) && IsCompletedJob(GetJob(s.redis, s.now, 1)) && s.now == 0
                   && Leads(s, s') && GetJob(s'.redis, s'.now, 1).Some? && GetJob(s'.redis, s'.now, 1).value.status.Failed? && s'.now == 0
                   && 1 in s'.redis.failed;
      NotFinal(origin, s, s', 1);
    } else {
      forall events, n, id, j ensures FinalIn(origin, events, n, id, j) {
        if 0 <= n <= |events| && Reads(Play(origin, events[..n]), id, j) && j.status.IsCompleted()
           && Play(origin, events).Some? && StillKept(j, Play(origin, events).value.now) {
          CompletedRecordIsFinal(events, n, id, j);
        }
      }
    }
  }

  lemma NotFinal(origin: System.State, s: System.State, s': System.State, id: AccountId)
    requires Leads(origin, s) && Leads(s, s') && s'.now == 0
    requires IsCompletedJob(GetJob(s.redis, s.now, id)) && GetJob(s'.redis, s'.now, id).Some?
    requires GetJob(s'.redis, s'.now, id).value.status.Failed?
    ensures !RecordsAreFinal(origin)
  {
    var first :| Play(origin, first) == Some(s);
    var second :| Play(s, second) == Some(s');
    PlayConcat(origin, first, second, s);
    var events := first + second;
    assert events[..|first|] == first;
    assert !FinalIn(origin, events, |first|, id, GetJob(s.redis, s.now, id).value);
  }
}
