/**
 The run lease (src/cli.rs, `exclusive_run`, with the lease commands of src/redis.rs) as a timed
 state machine over any number of processes. Times are in milliseconds. A timer fires when it is
 due; a command takes effect in Redis somewhere between being sent and being answered.
 */
module Lease {
  import opened Wrappers

  const RUN_LEASE: nat := 180_000
  const RENEWAL_SLEEP: nat := 60_000
  const RENEWAL_TIMEOUT: nat := 30_000

  /** A run is named by its lease token; tokens are assumed never to repeat. */
  type Token = nat

  datatype Key = Key(holder: Token, expiry: nat)

  datatype Phase =
    | Acquired(at: nat)               // Redis granted the lease, the reply is still under way
    | Sleeping(wake: nat)             // operation polled, renewal loop asleep
    | Renewing(sent: nat)             // operation polled, renewal sent, not yet applied
    | Answered(sent: nat, ok: bool)   // operation polled, renewal applied, reply under way
    | Releasing(checks: bool)         // operation no longer polled, release not yet applied
    | Released(checks: bool)          // release applied, reply under way
    | Gone

  datatype State = State(now: nat, key: Option<Key>, runs: map<Token, Phase>)

  datatype Event =
    | Tick(elapsed: nat)
    | Acquire(run: Token)
    | AcquireReply(run: Token)
    | RenewalSent(run: Token)
    | RenewalApplied(run: Token)
    | RenewalReply(run: Token)
    | RenewalFailed(run: Token)
    | RenewalTimedOut(run: Token)
    | OperationEnds(run: Token)
    | ReleaseApplied(run: Token)
    | ReleaseReply(run: Token)
    | LateRenewal(run: Token)
    | Crash(run: Token)

  const INITIAL := State(0, None, map[])

  /** GET at time `now`: the holder, unless the key has expired. */
  function Holder(s: State): Option<Token> {
    if s.key.Some? && s.now < s.key.value.expiry then Some(s.key.value.holder) else None
  }

  predicate Polled(phase: Phase) {
    phase.Sleeping? || phase.Renewing? || phase.Answered?
  }

  /**
   Checks the operation has spawned may go on. An operation that ended has joined its checks; one that
   is given up on is dropped with its checks only when the whole run returns, after the release.
   */
  predicate ChecksLive(phase: Phase) {
    Polled(phase) || (phase.Releasing? && phase.checks) || (phase.Released? && phase.checks)
  }

  /** Time may not pass a due timer, nor the latest moment the acquire reply is assumed to arrive. */
  predicate MayWaitUntil(phase: Phase, time: nat, maxReply: nat) {
    match phase
    case Acquired(at) => time < at + maxReply
    case Sleeping(wake) => time <= wake
    case Renewing(sent) => time <= sent + RENEWAL_TIMEOUT
    case Answered(sent, _) => time <= sent + RENEWAL_TIMEOUT
    case Releasing(_) => true
    case Released(_) => true
    case Gone => true
  }

  function Enter(s: State, run: Token, phase: Phase): State {
    s.(runs := s.runs[run := phase])
  }

  /** The renewal script: extends the key only for its holder. */
  function Renew(s: State, run: Token): State {
    if Holder(s) == Some(run) then s.(key := Some(Key(run, s.now + RUN_LEASE))) else s
  }

  /** The release script: deletes the key only for its holder. */
  function Release(s: State, run: Token): State {
    if Holder(s) == Some(run) then s.(key := None) else s
  }

  /** What is assumed: how late an acquire reply may be, and whether a renewal may fail or time out. */
  datatype World = World(maxReply: nat, renewalsMayFail: bool)

  /** The state after an event, or `None` when the event cannot happen. */
  function Step(s: State, event: Event, world: World): Option<State> {
    match event
    case Tick(elapsed) =>
      if forall run | run in s.runs :: MayWaitUntil(s.runs[run], s.now + elapsed, world.maxReply)
      then Some(s.(now := s.now + elapsed)) else None
    case Acquire(run) =>
      if run in s.runs then None
      else if Holder(s).Some? then Some(s)
      else Some(Enter(s.(key := Some(Key(run, s.now + RUN_LEASE))), run, Acquired(s.now)))
    case AcquireReply(run) =>
      if run in s.runs && s.runs[run].Acquired? then Some(Enter(s, run, Sleeping(s.now + RENEWAL_SLEEP))) else None
    case RenewalSent(run) =>
      if run in s.runs && s.runs[run] == Sleeping(s.now) then Some(Enter(s, run, Renewing(s.now))) else None
    case RenewalApplied(run) =>
      if run in s.runs && s.runs[run].Renewing?
      then Some(Enter(Renew(s, run), run, Answered(s.runs[run].sent, Holder(s) == Some(run)))) else None
    case RenewalReply(run) =>
      if run in s.runs && s.runs[run].Answered?
      then Some(Enter(s, run, if s.runs[run].ok then Sleeping(s.now + RENEWAL_SLEEP) else Releasing(true))) else None
    case RenewalFailed(run) =>
      if world.renewalsMayFail && run in s.runs && (s.runs[run].Renewing? || s.runs[run].Answered?)
      then Some(Enter(s, run, Releasing(true))) else None
    case RenewalTimedOut(run) =>
      if world.renewalsMayFail && run in s.runs && (s.runs[run].Renewing? || s.runs[run].Answered?)
         && s.now == s.runs[run].sent + RENEWAL_TIMEOUT
      then Some(Enter(s, run, Releasing(true))) else None
    case OperationEnds(run) =>
      if run in s.runs && Polled(s.runs[run]) then Some(Enter(s, run, Releasing(false))) else None
    case ReleaseApplied(run) =>
      if run in s.runs && s.runs[run].Releasing? then Some(Enter(Release(s, run), run, Released(s.runs[run].checks))) else None
    case ReleaseReply(run) =>
      if run in s.runs && s.runs[run].Released? then Some(Enter(s, run, Gone)) else None
    case LateRenewal(run) =>
      if run in s.runs && (s.runs[run].Releasing? || s.runs[run].Released? || s.runs[run].Gone?) then Some(Renew(s, run)) else None
    case Crash(run) =>
      if run in s.runs then Some(Enter(s, run, Gone)) else None
  }

  /** The state after a history, or `None` if some event in it could not happen. */
  function Run(events: seq<Event>, world: World): Option<State> {
    if events == [] then Some(INITIAL)
    else
      match Run(events[..|events| - 1], world)
      case None => None
      case Some(s) => Step(s, events[|events| - 1], world)
  }

  /** No two operations are polled at once. */
  predicate Exclusive(s: State) {
    forall a, b :: a in s.runs && b in s.runs && Polled(s.runs[a]) && Polled(s.runs[b]) ==> a == b
  }

  // ---------------------------------------------------------------------------------------------

  /** Acquire replies arrive early enough for the first renewal to be answered or given up on. */
  const PROMPT_REPLY: nat := RUN_LEASE - RENEWAL_SLEEP - RENEWAL_TIMEOUT

  ghost predicate HoldsUntil(s: State, run: Token, time: nat) {
    s.key.Some? && s.key.value.holder == run && time < s.key.value.expiry
  }

  /** What is true of one run in every reachable state. */
  ghost predicate RunInv(s: State, run: Token, phase: Phase, world: World) {
    && MayWaitUntil(phase, s.now, world.maxReply)
    && match phase
       case Acquired(at) => HoldsUntil(s, run, at + world.maxReply + RENEWAL_SLEEP + RENEWAL_TIMEOUT - 1)
       case Sleeping(wake) => HoldsUntil(s, run, wake + RENEWAL_TIMEOUT)
       case Renewing(sent) => sent <= s.now && HoldsUntil(s, run, sent + RENEWAL_TIMEOUT)
       case Answered(sent, ok) => ok && HoldsUntil(s, run, sent + 2 * RENEWAL_TIMEOUT + RENEWAL_SLEEP)
       case Releasing(checks) => checks ==> world.renewalsMayFail
       case Released(checks) => checks ==> world.renewalsMayFail
       case Gone => true
  }

  ghost predicate Inv(s: State, world: World) {
    forall run :: run in s.runs ==> RunInv(s, run, s.runs[run], world)
  }

  lemma HoldingPhaseHolds(s: State, run: Token, world: World)
    requires Inv(s, world) && run in s.runs && world.maxReply > 0
    requires Polled(s.runs[run]) || s.runs[run].Acquired?
    ensures Holder(s) == Some(run)
  {
    assert RunInv(s, run, s.runs[run], world);
  }

  /** Whose event it is. */
  function Actor(event: Event): Option<Token> {
    match event
    case Tick(_) => None
    case Acquire(run) => Some(run)
    case AcquireReply(run) => Some(run)
    case RenewalSent(run) => Some(run)
    case RenewalApplied(run) => Some(run)
    case RenewalReply(run) => Some(run)
    case RenewalFailed(run) => Some(run)
    case RenewalTimedOut(run) => Some(run)
    case OperationEnds(run) => Some(run)
    case ReleaseApplied(run) => Some(run)
    case LateRenewal(run) => Some(run)
    case Crash(run) => Some(run)
    case ReleaseReply(run) => Some(run)
  }

  /** No run's command, a release above all, ever touches a lease another run holds. */
  lemma OthersLeaseUntouched(s: State, event: Event, world: World, holder: Token)
    requires Step(s, event, world).Some? && Holder(s) == Some(holder)
    requires Actor(event) != Some(holder)
    ensures Step(s, event, world).value.key == s.key
  {
  }

  /** A run keeps its invariant through the steps of others and of time. */
  lemma OthersKeepInv(s: State, event: Event, world: World, run: Token)
    requires world.maxReply > 0 && Inv(s, world) && Step(s, event, world).Some?
    requires run in s.runs && Actor(event) != Some(run)
    ensures var s' := Step(s, event, world).value;
            run in s'.runs && RunInv(s', run, s'.runs[run], world)
  {
    assert RunInv(s, run, s.runs[run], world);
    var s' := Step(s, event, world).value;
    assert run in s'.runs && s'.runs[run] == s.runs[run];
    if Polled(s.runs[run]) || s.runs[run].Acquired? {
      HoldingPhaseHolds(s, run, world);
      OthersLeaseUntouched(s, event, world, run);
    }
  }

  /** A run keeps its invariant through its own steps. */
  lemma OwnStepKeepsInv(s: State, event: Event, world: World, run: Token)
    requires 0 < world.maxReply <= PROMPT_REPLY
    requires Inv(s, world) && Step(s, event, world).Some?
    requires Actor(event) == Some(run) && run in s.runs
    ensures var s' := Step(s, event, world).value;
            run in s'.runs && RunInv(s', run, s'.runs[run], world)
  {
    assert RunInv(s, run, s.runs[run], world);
    if Polled(s.runs[run]) || s.runs[run].Acquired? {
      HoldingPhaseHolds(s, run, world);
    }
  }

  lemma StepKeepsInv(s: State, event: Event, world: World)
    requires 0 < world.maxReply <= PROMPT_REPLY
    requires Inv(s, world) && Step(s, event, world).Some?
    ensures Inv(Step(s, event, world).value, world)
  {
    var s' := Step(s, event, world).value;
    forall run | run in s'.runs ensures RunInv(s', run, s'.runs[run], world) {
      if run in s.runs {
        if Actor(event) == Some(run) {
          OwnStepKeepsInv(s, event, world, run);
        } else {
          OthersKeepInv(s, event, world, run);
        }
      } else {
        assert event == Acquire(run);
      }
    }
  }

  lemma {:induction false} ReachableInv(events: seq<Event>, world: World)
    requires 0 < world.maxReply <= PROMPT_REPLY && Run(events, world).Some?
    ensures Inv(Run(events, world).value, world)
  {
    if events != [] {
      var before := events[..|events| - 1];
      ReachableInv(before, world);
      StepKeepsInv(Run(before, world).value, events[|events| - 1], world);
    }
  }

  /**
   With acquire replies arriving in under 90 s, the lease key holds a run's token for as long as
   that run's operation is polled, so no two operations are polled at once, and a renewal that is
   answered in time always finds the lease still owned.
   */
  lemma LeaseHeldWhilePolled(events: seq<Event>, world: World, run: Token)
    requires 0 < world.maxReply <= 90_000 && Run(events, world).Some?
    ensures var s := Run(events, world).value;
            && Exclusive(s)
            && (run in s.runs && Polled(s.runs[run]) ==> Holder(s) == Some(run))
            && (run in s.runs && s.runs[run].Answered? ==> s.runs[run].ok)
  {
    ReachableInv(events, world);
    var s := Run(events, world).value;
    if run in s.runs && Polled(s.runs[run]) {
      HoldingPhaseHolds(s, run, world);
      assert RunInv(s, run, s.runs[run], world);
    }
    InvExcludes(s, world);
  }

  lemma InvExcludes(s: State, world: World)
    requires Inv(s, world) && world.maxReply > 0
    ensures Exclusive(s)
  {
    forall a, b | a in s.runs && b in s.runs && Polled(s.runs[a]) && Polled(s.runs[b]) ensures a == b {
      HoldingPhaseHolds(s, a, world);
      HoldingPhaseHolds(s, b, world);
    }
  }

  // ---------------------------------------------------------------------------------------------
  // The bound is tight

  /** One more event of a history that is given whole. */
  lemma HistoryStep(all: seq<Event>, n: nat, world: World, s: State)
    requires n < |all| && Run(all[..n], world) == Some(s)
    ensures Run(all[..n + 1], world) == Step(s, all[n], world)
  {
    assert all[..n + 1][..n] == all[..n];
  }

  /** A first run whose reply took 90 s and whose renewal is never applied, and a second run. */
  function LateReply(): seq<Event> {
    [Acquire(1), Tick(PROMPT_REPLY), AcquireReply(1), Tick(RENEWAL_SLEEP), RenewalSent(1), Tick(RENEWAL_TIMEOUT),
     Acquire(2), AcquireReply(2)]
  }

  lemma LateRenewalIsSent(world: World)
    requires world.maxReply > PROMPT_REPLY
    ensures Run(LateReply()[..5], world) == Some(State(150_000, Some(Key(1, RUN_LEASE)), map[1 := Renewing(150_000)]))
  {
    var all := LateReply();
    assert all[..0] == [];
    HistoryStep(all, 0, world, INITIAL);
    var s1 := Enter(INITIAL.(key := Some(Key(1, RUN_LEASE))), 1, Acquired(0));
    HistoryStep(all, 1, world, s1);
    var s2 := s1.(now := PROMPT_REPLY);
    HistoryStep(all, 2, world, s2);
    var s3 := Enter(s2, 1, Sleeping(150_000));
    HistoryStep(all, 3, world, s3);
    var s4 := s3.(now := 150_000);
    HistoryStep(all, 4, world, s4);
    assert Enter(s4, 1, Renewing(150_000)).runs == map[1 := Renewing(150_000)];
  }

  lemma LateReplyBreaksExclusion(world: World)
    requires world.maxReply > PROMPT_REPLY
    ensures Run(LateReply(), world).Some? && !Exclusive(Run(LateReply(), world).value)
  {
    var all := LateReply();
    LateRenewalIsSent(world);
    var s5 := State(150_000, Some(Key(1, RUN_LEASE)), map[1 := Renewing(150_000)]);
    HistoryStep(all, 5, world, s5);
    var s6 := s5.(now := RUN_LEASE);
    HistoryStep(all, 6, world, s6);
    var s7 := Enter(s6.(key := Some(Key(2, 360_000))), 2, Acquired(RUN_LEASE));
    HistoryStep(all, 7, world, s7);
    var s8 := Enter(s7, 2, Sleeping(240_000));
    assert all[..8] == all;
    assert Polled(s8.runs[1]) && Polled(s8.runs[2]);
  }

  /** Exclusion holds in every history exactly when acquire replies are assumed to take less than 90 s. */
  lemma ExclusionIffPromptReplies(world: World)
    requires world.maxReply > 0
    ensures (forall events :: Run(events, world).Some? ==> Exclusive(Run(events, world).value))
       <==> world.maxReply <= 90_000
  {
    if world.maxReply <= PROMPT_REPLY {
      forall events | Run(events, world).Some? ensures Exclusive(Run(events, world).value) {
        ReachableInv(events, world);
        InvExcludes(Run(events, world).value, world);
      }
    } else {
      LateReplyBreaksExclusion(world);
    }
  }

  // ---------------------------------------------------------------------------------------------
  // Checks that outlive their operation

  /** No two runs have checks that may go on. */
  predicate ChecksExclusive(s: State) {
    forall a, b :: a in s.runs && b in s.runs && ChecksLive(s.runs[a]) && ChecksLive(s.runs[b]) ==> a == b
  }

  lemma InvExcludesChecks(s: State, world: World)
    requires Inv(s, world) && world.maxReply > 0 && !world.renewalsMayFail
    ensures ChecksExclusive(s)
  {
    InvExcludes(s, world);
    forall run | run in s.runs && ChecksLive(s.runs[run]) ensures Polled(s.runs[run]) {
      assert RunInv(s, run, s.runs[run], world);
    }
  }

  /** A renewal that fails, and a second run that starts before the release is answered. */
  function FailedRenewal(): seq<Event> {
    [Acquire(1), AcquireReply(1), Tick(RENEWAL_SLEEP), RenewalSent(1), RenewalFailed(1), ReleaseApplied(1),
     Acquire(2), AcquireReply(2)]
  }

  lemma FailedRenewalLeavesChecks(world: World)
    requires world.renewalsMayFail
    ensures Run(FailedRenewal(), world).Some? && !ChecksExclusive(Run(FailedRenewal(), world).value)
  {
    var all := FailedRenewal();
    assert all[..0] == [];
    HistoryStep(all, 0, world, INITIAL);
    var s1 := Enter(INITIAL.(key := Some(Key(1, RUN_LEASE))), 1, Acquired(0));
    HistoryStep(all, 1, world, s1);
    var s2 := Enter(s1, 1, Sleeping(RENEWAL_SLEEP));
    HistoryStep(all, 2, world, s2);
    var s3 := s2.(now := RENEWAL_SLEEP);
    HistoryStep(all, 3, world, s3);
    var s4 := Enter(s3, 1, Renewing(RENEWAL_SLEEP));
    HistoryStep(all, 4, world, s4);
    var s5 := Enter(s4, 1, Releasing(true));
    HistoryStep(all, 5, world, s5);
    var s6 := Enter(s5.(key := None), 1, Released(true));
    HistoryStep(all, 6, world, s6);
    var s7 := Enter(s6.(key := Some(Key(2, RENEWAL_SLEEP + RUN_LEASE))), 2, Acquired(RENEWAL_SLEEP));
    HistoryStep(all, 7, world, s7);
    var s8 := Enter(s7, 2, Sleeping(2 * RENEWAL_SLEEP));
    assert all[..8] == all;
    assert ChecksLive(s8.runs[1]) && ChecksLive(s8.runs[2]);
  }

  /** No two runs ever have live checks exactly when, besides, no renewal may fail or time out. */
  lemma ChecksExclusiveIffRenewalsSucceed(world: World)
    requires world.maxReply > 0
    ensures (forall events :: Run(events, world).Some? ==> ChecksExclusive(Run(events, world).value))
       <==> world.maxReply <= 90_000 && !world.renewalsMayFail
  {
    if world.maxReply > PROMPT_REPLY {
      LateReplyBreaksExclusion(world);
    } else if world.renewalsMayFail {
      FailedRenewalLeavesChecks(world);
    } else {
      forall events | Run(events, world).Some? ensures ChecksExclusive(Run(events, world).value) {
        ReachableInv(events, world);
        InvExcludesChecks(Run(events, world).value, world);
      }
    }
  }

  // ---------------------------------------------------------------------------------------------
  // Asking for the lease, and giving it back

  /** A run that asks gets the lease if and only if nobody holds it, for 180 s; otherwise nothing changes. */
  lemma LeaseIsGrantedIffFree(s: State, world: World, run: Token)
    requires run !in s.runs
    ensures var next := Step(s, Acquire(run), world);
            && next.Some?
            && (run in next.value.runs <==> s.key.None? || s.key.value.expiry <= s.now)
            && (if run in next.value.runs then next.value == s.(key := Some(Key(run, s.now + 180_000)), runs := s.runs[run := Acquired(s.now)])
                else next.value == s)
  {
  }

  /** The run has asked for the lease before, and does not hold it. */
  predicate IsDone(s: State, run: Token) {
    run in s.runs && Holder(s) != Some(run)
  }

  lemma DoneStays(s: State, event: Event, world: World, run: Token)
    requires IsDone(s, run) && Step(s, event, world).Some?
    ensures IsDone(Step(s, event, world).value, run)
  {
  }

  /** Over every history, a run's lease is gone for good once its release has taken effect. */
  lemma {:induction false} ReleaseIsForGood(events: seq<Event>, n: nat, world: World, run: Token)
    requires Run(events, world).Some? && n < |events| && events[n] == ReleaseApplied(run)
    ensures Holder(Run(events, world).value) != Some(run)
    ensures IsDone(Run(events, world).value, run)
    decreases |events|
  {
    var before, last := events[..|events| - 1], |events| - 1;
    if n < last {
      ReleaseIsForGood(before, n, world, run);
      DoneStays(Run(before, world).value, events[last], world, run);
    }
  }
}
