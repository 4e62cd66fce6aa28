/**
 The in-flight set of the Slack server as the object it is (src/server.rs, `InFlight` and its guard),
 and why it is what `System` says of clicks.
 */
module InFlightSet {
  import opened Wrappers
  import opened Accounts
  import System
  import Server

  /** The claim on an account, held for as long as its click is being handled. */
  class Guard {
    const id: AccountId
    const inFlight: InFlight

    constructor (inFlight: InFlight, id: AccountId)
      ensures this.inFlight == inFlight && this.id == id
    {
      this.inFlight := inFlight;
      this.id := id;
    }

    /** Dropping a guard ends its claim, and no other. */
    method Drop()
      requires inFlight.Valid() && this in inFlight.guards
      modifies inFlight
      ensures inFlight.Valid() && inFlight.guards == old(inFlight.guards) - {this}
      ensures id !in inFlight.accounts
    {
      inFlight.Remove(this);
    }
  }

  /** The accounts whose click is still being handled. */
  class InFlight {
    var accounts: set<AccountId>
    ghost var guards: set<Guard>

    /** The set is exactly the accounts of the live guards, and no account has two. */
    ghost predicate Valid()
      reads this
    {
      && accounts == (set g | g in guards :: g.id)
      && (forall g, h :: g in guards && h in guards && g.id == h.id ==> g == h)
      && (forall g :: g in guards ==> g.inFlight == this)
    }

    constructor ()
      ensures Valid() && guards == {}
    {
      accounts, guards := {}, {};
    }

    method IsEmpty() returns (empty: bool)
      requires Valid()
      ensures empty <==> guards == {}
    {
      empty := accounts == {};
      assert forall g :: g in guards ==> g.id in accounts;
    }

    /** `claim`: a guard, or nothing while a click for the account is being handled. */
    method Claim(id: AccountId) returns (guard: Option<Guard>)
      requires Valid()
      modifies this
      ensures Valid()
      ensures guard.None? <==> exists g :: g in old(guards) && g.id == id
      ensures guard.None? ==> guards == old(guards)
      ensures guard.Some? ==> fresh(guard.value) && guard.value.id == id && guards == old(guards) + {guard.value}
    {
      if id in accounts {
        return None;
      }
      var claimed := new Guard(this, id);
      accounts := accounts + {id};
      guards := guards + {claimed};
      guard := Some(claimed);
    }

    method Remove(guard: Guard)
      requires Valid() && guard in guards
      modifies this
      ensures Valid() && guards == old(guards) - {guard} && accounts == old(accounts) - {guard.id}
    {
      accounts := accounts - {guard.id};
      guards := guards - {guard};
    }
  }

  // ---------------------------------------------------------------------------------------------
  // Clicks

  /** What reaches the set: clicks, each for a task of its own, and the ends of tasks. */
  datatype Signal = Clicked(task: nat, id: AccountId) | Ended(task: nat)

  /** The in-flight accounts, and the account of each task under way. */
  datatype Clicks = Clicks(inFlight: set<AccountId>, tasks: map<nat, AccountId>)

  function Handle(c: Clicks, signal: Signal): Clicks {
    match signal
    case Clicked(task, id) =>
      if task in c.tasks || id in c.inFlight then c else Clicks(c.inFlight + {id}, c.tasks[task := id])
    case Ended(task) =>
      if task in c.tasks then Clicks(c.inFlight - {c.tasks[task]}, c.tasks - {task}) else c
  }

  function HandleAll(signals: seq<Signal>): Clicks {
    if signals == [] then Clicks({}, map[])
    else Handle(HandleAll(signals[..|signals| - 1]), signals[|signals| - 1])
  }

  function ClicksOf(s: System.State): Clicks {
    Clicks(s.inFlight, map t | t in s.tasks :: s.tasks[t].id)
  }

  /** The state machine handles a click, and the end of one, in the same way. */
  lemma SystemHandlesClicksSo(s: System.State, task: nat, id: AccountId, button: Server.Button)
    ensures System.Step(s, System.Click(task, id, button)).Some? ==>
              ClicksOf(System.Step(s, System.Click(task, id, button)).value) == Handle(ClicksOf(s), Clicked(task, id))
    ensures System.Step(s, System.DropGuard(task)).Some? ==>
              ClicksOf(System.Step(s, System.DropGuard(task)).value) == Handle(ClicksOf(s), Ended(task))
  {
  }

  /** The guards of the tasks under way are the live guards, each of its own account. */
  ghost predicate Guarded(inFlight: InFlight, guards: map<nat, Guard>, clicks: Clicks)
    reads inFlight
  {
    && inFlight.Valid() && inFlight.accounts == clicks.inFlight && inFlight.guards == guards.Values
    && guards.Keys == clicks.tasks.Keys
    && (forall t :: t in guards ==> guards[t].id == clicks.tasks[t])
    && (forall t, u :: t in guards && u in guards && guards[t] == guards[u] ==> t == u)
  }

  lemma OneMoreGuard(guards: map<nat, Guard>, task: nat, guard: Guard)
    requires task !in guards
    ensures guards[task := guard].Values == guards.Values + {guard}
  {
    var more := guards[task := guard];
    assert more[task] == guard;
    assert forall t :: t in guards ==> more[t] == guards[t];
  }

  lemma OneGuardLess(guards: map<nat, Guard>, task: nat)
    requires task in guards && forall t, u :: t in guards && u in guards && guards[t] == guards[u] ==> t == u
    ensures (guards - {task}).Values == guards.Values - {guards[task]}
  {
    var fewer := guards - {task};
    forall g | g in guards.Values - {guards[task]} ensures g in fewer.Values {
      var t :| t in guards && guards[t] == g;
      assert t in fewer && fewer[t] == g;
    }
  }

  /** A server that claims on a click and drops the guard when its task ends handles any signals as the state machine does. */
  method Serve(signals: seq<Signal>) returns (inFlight: InFlight, guards: map<nat, Guard>)
    ensures Guarded(inFlight, guards, HandleAll(signals))
  {
    inFlight := new InFlight();
    guards := map[];
    assert signals[..0] == [];
    for i := 0 to |signals|
      invariant fresh(inFlight)
      invariant Guarded(inFlight, guards, HandleAll(signals[..i]))
    {
      assert signals[..i + 1][..i] == signals[..i];
      match signals[i] {
        case Clicked(task, id) =>
          if task !in guards {
            var guard := inFlight.Claim(id);
            if guard.Some? {
              OneMoreGuard(guards, task, guard.value);
              guards := guards[task := guard.value];
            }
          }
        case Ended(task) =>
          if task in guards {
            OneGuardLess(guards, task);
            guards[task].Drop();
            guards := guards - {task};
          }
      }
    }
    assert signals[..|signals|] == signals;
  }
}
