/**
 What each kind of event of the state machine leaves alone.
 */
module Frames {
  import opened Wrappers
  import opened System

  predicate IsEnvironmentEvent(event: Event) {
    event.Tick? || event.Arrive? || event.StartRun? || event.CrashRun?
  }

  predicate IsServerEvent(event: Event) {
    event.Click? || event.Handle? || event.DropGuard? || event.CrashServer?
  }

  /** The history at most notes accounts that Redis now shows settled. */
  ghost predicate OnlySettles(s: State, s': State) {
    && s'.history == s.history.(settled := s'.history.settled)
    && forall id :: id in s'.history.settled && id !in s.history.settled ==> Settles(s'.redis, id)
  }

  /** What no event of a run touches. */
  predicate RunFrame(s: State, s': State) {
    && s'.now == s.now && s'.listed == s.listed && s'.tasks == s.tasks && s'.inFlight == s.inFlight
    && s'.maxReply == s.maxReply && s'.mayLinger == s.mayLinger && s'.leftovers == s.leftovers
    && s.run.Some? && (s'.run.Some? ==> s'.run.value.kind == s.run.value.kind)
  }

  /** A run that comes to its checks has none under way yet. */
  predicate BeforeChecks(s: State, s': State) {
    && s.run.Some? && !s.run.value.stage.Checking?
    && (s'.run.Some? && s'.run.value.stage.Checking? ==> s'.run.value.stage.workers == map[])
  }

  lemma RetryFrame(s: State, event: Event)
    requires IsRetryEvent(event) && Step(s, event).Some?
    ensures var s' := Step(s, event).value;
            && RunFrame(s, s') && BeforeChecks(s, s') && OnlySettles(s, s')
            && s'.redis.cursor == s.redis.cursor && s'.redis.feedback == s.redis.feedback && s'.redis.claims == s.redis.claims
            && (!event.MarkWrite? ==> s'.redis.jobs == s.redis.jobs)
            && (!event.MarkWrite? && !event.WalkRemove? ==> s'.redis == s.redis)
  {
    RetryKeepsRun(s, s.run.value, event);
    if event.MarkWrite? {
      MarkWriteFrame(s, s.run.value);
    } else {
      RetryKeepsRedis(s, s.run.value, event);
    }
  }

  lemma RetryKeepsRun(s: State, run: Run, event: Event)
    requires IsRetryEvent(event) && s.run == Some(run) && StepRetry(s, run, event).Some?
    ensures var s' := StepRetry(s, run, event).value; RunFrame(s, s') && BeforeChecks(s, s')
  {
  }

  lemma RetryKeepsRedis(s: State, run: Run, event: Event)
    requires IsRetryEvent(event) && !event.MarkWrite? && s.run == Some(run) && StepRetry(s, run, event).Some?
    ensures var s' := StepRetry(s, run, event).value;
            && s'.history == s.history
            && s'.redis == s.redis.(failed := s'.redis.failed, pending := s'.redis.pending)
            && (!event.WalkRemove? ==> s'.redis == s.redis)
  {
  }

  lemma MarkWriteFrame(s: State, run: Run)
    requires s.run == Some(run) && StepRetry(s, run, MarkWrite).Some?
    ensures var s' := StepRetry(s, run, MarkWrite).value;
            && OnlySettles(s, s')
            && s'.redis.cursor == s.redis.cursor && s'.redis.feedback == s.redis.feedback && s'.redis.claims == s.redis.claims
  {
  }

  lemma PeriodicFrame(s: State, event: Event)
    requires IsPeriodicEvent(event) && Step(s, event).Some?
    ensures var s' := Step(s, event).value;
            && RunFrame(s, s') && BeforeChecks(s, s')
            && s'.redis == s.redis.(jobs := s'.redis.jobs, cursor := s'.redis.cursor)
            && (!event.MigrateApply? ==> s'.redis.jobs == s.redis.jobs)
            && (!event.SaveCursor? ==> s'.redis.cursor == s.redis.cursor && OnlySettles(s, s'))
  {
    PeriodicKeepsRun(s, s.run.value, event);
    if event.MigrateApply? {
      MigrateApplyFrame(s, s.run.value, event.id);
    } else {
      PeriodicKeepsRedis(s, s.run.value, event);
    }
  }

  lemma PeriodicKeepsRun(s: State, run: Run, event: Event)
    requires IsPeriodicEvent(event) && s.run == Some(run) && StepPeriodic(s, run, event).Some?
    ensures var s' := StepPeriodic(s, run, event).value; RunFrame(s, s') && BeforeChecks(s, s')
  {
  }

  lemma PeriodicKeepsRedis(s: State, run: Run, event: Event)
    requires IsPeriodicEvent(event) && !event.MigrateApply? && s.run == Some(run) && StepPeriodic(s, run, event).Some?
    ensures var s' := StepPeriodic(s, run, event).value;
            && s'.redis == s.redis.(cursor := s'.redis.cursor)
            && (!event.SaveCursor? ==> s'.redis == s.redis && s'.history == s.history)
  {
  }

  lemma MigrateApplyFrame(s: State, run: Run, id: nat)
    requires s.run == Some(run) && StepPeriodic(s, run, MigrateApply(id)).Some?
    ensures var s' := StepPeriodic(s, run, MigrateApply(id)).value;
            OnlySettles(s, s') && s'.redis == s.redis.(jobs := s'.redis.jobs)
  {
  }

  lemma ChunkFrame(s: State, event: Event)
    requires (event.StartChunk? || event.EndChunk?) && Step(s, event).Some?
    ensures var s' := Step(s, event).value;
            RunFrame(s, s') && s'.redis == s.redis && s'.history == s.history && s.run.value.stage.Checking?
  {
    if event.EndChunk? {
      EndChunkFrame(s, s.run.value);
    }
  }

  lemma EndChunkFrame(s: State, run: Run)
    requires s.run == Some(run) && run.stage.Checking? && StepEndChunk(s, run).Some?
    ensures var s' := StepEndChunk(s, run).value;
            && RunFrame(s, s') && s'.redis == s.redis && s'.history == s.history
            && (s'.run.Some? ==>
                  || (s'.run.value.stage.SavingCursor? && run.kind.PeriodicCheck?)
                  || s'.run.value.stage == Checking(run.stage.cursor, run.stage.accounts, run.stage.end, run.stage.end, map[]))
  {
  }

  lemma ServerFrame(s: State, event: Event)
    requires IsServerEvent(event) && Step(s, event).Some?
    ensures var s' := Step(s, event).value;
            && s'.now == s.now && s'.listed == s.listed && s'.run == s.run
            && s'.maxReply == s.maxReply && s'.mayLinger == s.mayLinger && s'.leftovers == s.leftovers
            && s'.redis.jobs == s.redis.jobs && s'.redis.cursor == s.redis.cursor && s'.redis.claims == s.redis.claims
            && OnlySettles(s, s')
            && (!event.Handle? ==> s'.redis == s.redis)
  {
  }

  lemma EnvironmentFrame(s: State, event: Event)
    requires IsEnvironmentEvent(event) && Step(s, event).Some?
    ensures var s' := Step(s, event).value;
            && s'.redis == s.redis && s'.history == s.history && s'.tasks == s.tasks && s'.inFlight == s.inFlight
            && s'.maxReply == s.maxReply && s'.mayLinger == s.mayLinger && s'.leftovers == s.leftovers
            && s.now <= s'.now && (!event.Tick? ==> s'.now == s.now)
            && (s'.run == s.run || s'.run.None? || (event.StartRun? && s.run.None? && !s'.run.value.stage.Checking?))
  {
  }

  lemma LeftoverFrame(s: State, event: Event)
    requires IsLeftoverEvent(event) && Step(s, event).Some?
    ensures var s' := Step(s, event).value;
            && s'.now == s.now && s'.listed == s.listed && s'.tasks == s.tasks && s'.inFlight == s.inFlight
            && s'.maxReply == s.maxReply && s'.mayLinger == s.mayLinger
            && (s'.run == s.run || s'.run.None?)
            && (!event.LeftoverCheck? ==> s'.redis == s.redis && s'.history == s.history)
  {
  }
}
