/**
 The invariant of the whole service and its preservation by every event of `System`.
 */
module SystemInvariants {
  import opened Wrappers
  import opened Accounts
  import opened Redis
  import opened System
  import opened AccountInvariants
  import W = Worker

  ghost predicate AcctsInv(s: System.State) {
    forall id :: AcctInv(s.redis, s.now, s.history, id)
  }

  ghost predicate ListedInv(s: System.State) {
    forall id :: id in s.listed ==> s.listed[id].id == id
  }

  /** Everything listed between the first account ever covered and the cursor is settled. */
  ghost predicate CursorInv(s: System.State) {
    && (s.redis.cursor.Some? <==> s.history.base.Some?)
    && (s.redis.cursor.Some? ==>
          && s.redis.cursor.value in s.listed
          && forall x :: x in s.listed && s.history.base.value <= x <= s.redis.cursor.value
               ==> SettledOrSystem(s.history, s.listed[x]))
  }

  ghost predicate AllNotCompleted(s: System.State, ids: seq<AccountId>) {
    forall i :: 0 <= i < |ids| ==> NotCompleted(s.redis, s.now, ids[i])
  }

  ghost predicate Distinct(ids: seq<AccountId>) {
    forall i, j :: 0 <= i < j < |ids| ==> ids[i] != ids[j]
  }

  /** A periodic run's list still continues exactly where the saved cursor stands. */
  ghost predicate ListInv(s: System.State, cursor: Option<AccountId>, accounts: seq<Account>) {
    && accounts != []
    && FromListing(s, accounts)
    && Contiguous(s.listed.Keys, cursor, accounts)
    && cursor == s.redis.cursor
    && (cursor.Some? ==> cursor.value < accounts[0].id)
  }

  ghost predicate PrefixSettled(h: History, accounts: seq<Account>, n: nat) {
    n <= |accounts| && forall i :: 0 <= i < n ==> SettledOrSystem(h, accounts[i])
  }

  ghost predicate ChecksInv(s: System.State, kind: W.RunKind, accounts: seq<Account>, workers: map<AccountId, W.Phase>) {
    forall id :: id in workers ==>
      && FindAccount(accounts, id).Some? && FindAccount(accounts, id).value.id == id
      && CheckInv(s.redis, s.now, s.history, kind, FindAccount(accounts, id).value, workers[id])
  }

  /** The accounts fetched so far are distinct, and none is still to be fetched. */
  ghost predicate FetchedApart(fetched: seq<Account>, todo: seq<AccountId>) {
    DistinctIds(fetched) && forall i :: 0 <= i < |fetched| ==> fetched[i].id !in todo
  }

  /** The account is one of those from `next` on, before `end`. */
  ghost predicate InPart(accounts: seq<Account>, next: nat, end: nat, id: AccountId) {
    exists i :: next <= i < end && i < |accounts| && accounts[i].id == id
  }

  ghost predicate WalkInv(s: System.State, queue: set<AccountId>, live: seq<AccountId>) {
    AllNotCompleted(s, live) && Distinct(live) && forall i :: 0 <= i < |live| ==> live[i] !in queue
  }

  ghost predicate DecisionsFit(r: Redis.State, now: nat, startSecs: nat, decided: map<AccountId, Option<nat>>) {
    forall id :: id in decided && GetJob(r, now, id).Some? ==> decided[id] == RemainingJobTtl(GetJob(r, now, id).value, startSecs)
  }

  ghost predicate StageInv(s: System.State, kind: W.RunKind, stage: Stage) {
    match stage
    case Migrating(startSecs, decided) =>
      && kind.PeriodicCheck? && startSecs * 1_000 <= s.now
      && DecisionsFit(s.redis, s.now, startSecs, decided)
    case ReadingCursor => kind.PeriodicCheck?
    case Listing(cursor) => kind.PeriodicCheck? ==> cursor == s.redis.cursor
    case ReadingFailed => kind.RetryFailed?
    case ReadingPending(_) => kind.RetryFailed?
    case Walking(queue, live) => kind.RetryFailed? && WalkInv(s, queue, live)
    case Looking(id, resolved, queue, live) =>
      kind.RetryFailed? && WalkInv(s, queue, live) && id !in queue && id !in live && (resolved ==> Dismissed(s.redis, id))
    case Removing(dead, queue, live) => kind.RetryFailed? && WalkInv(s, queue, live) && Dismissed(s.redis, dead)
    case Fetching(todo, fetched) =>
      kind.RetryFailed? && AllNotCompleted(s, todo) && Distinct(todo) && FetchedApart(fetched, todo)
    case MarkReading(gone, todo, fetched) =>
      && kind.RetryFailed? && AllNotCompleted(s, [gone] + todo) && Distinct([gone] + todo) && FetchedApart(fetched, todo)
    case MarkWriting(gone, job, todo, fetched) =>
      && kind.RetryFailed? && AllNotCompleted(s, [gone] + todo) && Distinct([gone] + todo) && FetchedApart(fetched, todo)
      && (job.None? ==> Dead(s.redis, gone) && GetJob(s.redis, s.now, gone).None?)
    case Checking(cursor, accounts, next, end, workers) =>
      && next <= end <= |accounts|
      && ChecksInv(s, kind, accounts, workers)
      && DistinctIds(accounts) && (forall id :: id in workers ==> InPart(accounts, next, end, id))
      && (kind.PeriodicCheck? ==> ListInv(s, cursor, accounts) && PrefixSettled(s.history, accounts, next))
    case SavingCursor(cursor, accounts, upto) =>
      kind.PeriodicCheck? && 0 < upto && ListInv(s, cursor, accounts) && PrefixSettled(s.history, accounts, upto)
  }

  ghost predicate RunInv(s: System.State) {
    s.run.Some? ==> StageInv(s, s.run.value.kind, s.run.value.stage)
  }

  /** The in-flight set is exactly the accounts of live clicks, and a click past its check is not on a cleared account. */
  ghost predicate ServerInv(s: System.State) {
    && s.inFlight == (set t | t in s.tasks :: s.tasks[t].id)
    && (forall t, u :: t in s.tasks && u in s.tasks && t != u ==> s.tasks[t].id != s.tasks[u].id)
    && (forall t :: t in s.tasks && (s.tasks[t].phase.CheckSuspended? || s.tasks[t].phase.Issuing? || s.tasks[t].phase.Calling?)
          ==> FeedbackStatus(s.redis, s.tasks[t].id) != Some(FalsePositive))
  }

  /** Everything but the run under way. */
  ghost predicate SharedInv(s: System.State) {
    AcctsInv(s) && ListedInv(s) && CursorInv(s) && ServerInv(s) && s.maxReply <= CLAIM_REPLY_MAX
    && !s.mayLinger && s.leftovers == map[]
  }

  ghost predicate Inv(s: System.State) {
    SharedInv(s) && RunInv(s)
  }

  // ---------------------------------------------------------------------------------------------
  // Environment

  lemma TickKeepsInv(s: System.State, elapsed: nat)
    requires Inv(s) && TimeMayPass(s, s.now + elapsed)
    ensures Inv(s.(now := s.now + elapsed))
  {
    var s' := s.(now := s.now + elapsed);
    forall id ensures AcctInv(s'.redis, s'.now, s'.history, id) {
      AcctLater(s.redis, s.now, s'.now, s.history, id);
    }
    if s.run.Some? && s.run.value.stage.Checking? {
      var kind, accounts, workers := s.run.value.kind, s.run.value.stage.accounts, s.run.value.stage.workers;
      forall id | id in workers
        ensures CheckInv(s'.redis, s'.now, s'.history, kind, FindAccount(accounts, id).value, workers[id])
      {
        CheckLater(s.redis, s.now, s'.now, s.history, kind, FindAccount(accounts, id).value, workers[id]);
      }
    }
  }

  lemma ArriveKeepsInv(s: System.State, account: Account)
    requires Inv(s) && forall x :: x in s.listed ==> x < account.id
    ensures Inv(s.(listed := s.listed[account.id := account]))
  {
    var s' := s.(listed := s.listed[account.id := account]);
    if s.run.Some? {
      match s.run.value.stage {
        case Checking(cursor, accounts, _, _, _) =>
          if s.run.value.kind.PeriodicCheck? {
            ArriveKeepsList(s, account, cursor, accounts);
          }
        case SavingCursor(cursor, accounts, _) => ArriveKeepsList(s, account, cursor, accounts);
        case other =>
      }
    }
  }

  lemma ArriveKeepsList(s: System.State, account: Account, cursor: Option<AccountId>, accounts: seq<Account>)
    requires ListInv(s, cursor, accounts) && forall x :: x in s.listed ==> x < account.id
    ensures ListInv(s.(listed := s.listed[account.id := account]), cursor, accounts)
  {
    assert accounts[|accounts| - 1].id in s.listed;
  }

  lemma EnvironmentKeepsInv(s: System.State, event: Event)
    requires event.Tick? || event.Arrive? || event.StartRun? || event.CrashRun?
    requires Inv(s) && StepEnvironment(s, event).Some?
    ensures Inv(StepEnvironment(s, event).value)
  {
    match event {
      case Tick(elapsed) => TickKeepsInv(s, elapsed);
      case Arrive(account) => ArriveKeepsInv(s, account);
      case other =>
    }
  }
}
