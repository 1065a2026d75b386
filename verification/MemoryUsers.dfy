// First-touch creation of memory users under double-checked locking: any number of concurrent
// `_user_for` calls, interleaved at every await, in one process without deletes.
module MemoryUsers {
  import opened Options

  type Assistant = string
  type User = string

  /** Where a call stands. In `InSetup`, `Finding` and `Creating` it awaits the memory library
      and holds the setup lock or its assistant's lock. */
  datatype Point = Entered | NeedsSetup | InSetup | NeedsLock | Finding | Creating | Returned(user: User) | Raised

  datatype Call = Call(assistant: Assistant, at: Point)

  datatype State = State(
    calls: map<nat, Call>,
    users: map<Assistant, User>,       // the adapter's cache
    userLocks: map<Assistant, nat>,    // held per-assistant locks and their holders
    setupLock: Option<nat>,
    setupDone: bool,
    directory: map<Assistant, User>,   // the library's user table
    setups: nat,                       // completed setup() calls
    creates: map<Assistant, nat>)      // successful create_user calls

  datatype Step =
    | Enter(c: nat, assistant: Assistant)
    | CheckCache(c: nat)
    | CheckSetup(c: nat)
    | TakeSetupLock(c: nat)
    | SetupCompletes(c: nat)
    | TakeUserLock(c: nat)
    | LookupReturns(c: nat)
    | CreateReturns(c: nat, user: User)
    | LibraryRaises(c: nat)

  predicate At(s: State, c: nat, p: Point)
  {
    c in s.calls && s.calls[c].at == p
  }

  predicate Enabled(s: State, step: Step)
  {
    match step
    case Enter(c, a) => c !in s.calls
    case CheckCache(c) => At(s, c, Entered)
    case CheckSetup(c) => At(s, c, NeedsSetup) && s.setupDone
    case TakeSetupLock(c) => At(s, c, NeedsSetup) && s.setupLock.None?
    case SetupCompletes(c) => At(s, c, InSetup)
    case TakeUserLock(c) => At(s, c, NeedsLock) && s.calls[c].assistant !in s.userLocks
    case LookupReturns(c) => At(s, c, Finding)
    case CreateReturns(c, u) => At(s, c, Creating)
    case LibraryRaises(c) => At(s, c, InSetup) || At(s, c, Finding) || At(s, c, Creating)
  }

  function Move(s: State, c: nat, p: Point): State
    requires c in s.calls
  {
    s.(calls := s.calls[c := s.calls[c].(at := p)])
  }

  function Count(counts: map<Assistant, nat>, a: Assistant): nat
  {
    if a in counts then counts[a] else 0
  }

  function Apply(s: State, step: Step): State
    requires Enabled(s, step)
  {
    match step
    case Enter(c, a) => s.(calls := s.calls[c := Call(a, Entered)])
    case CheckCache(c) =>
      var a := s.calls[c].assistant;
      Move(s, c, if a in s.users then Returned(s.users[a]) else NeedsSetup)
    case CheckSetup(c) => Move(s, c, NeedsLock)
    case TakeSetupLock(c) =>
      if s.setupDone then Move(s, c, NeedsLock) else Move(s, c, InSetup).(setupLock := Some(c))
    case SetupCompletes(c) => Move(s, c, NeedsLock).(setupLock := None, setupDone := true, setups := s.setups + 1)
    case TakeUserLock(c) =>
      var a := s.calls[c].assistant;
      if a in s.users then Move(s, c, Returned(s.users[a])) else Move(s, c, Finding).(userLocks := s.userLocks[a := c])
    case LookupReturns(c) =>
      var a := s.calls[c].assistant;
      if a in s.directory
      then Move(s, c, Returned(s.directory[a])).(users := s.users[a := s.directory[a]], userLocks := s.userLocks - {a})
      else Move(s, c, Creating)
    case CreateReturns(c, u) =>
      var a := s.calls[c].assistant;
      Move(s, c, Returned(u)).(users := s.users[a := u], userLocks := s.userLocks - {a},
                               directory := s.directory[a := u],
                               creates := s.creates[a := Count(s.creates, a) + 1])
    case LibraryRaises(c) =>
      if s.calls[c].at.InSetup? then Move(s, c, Raised).(setupLock := None)
      else Move(s, c, Raised).(userLocks := s.userLocks - {s.calls[c].assistant})
  }

  /** A fresh process; the library may know users from before. */
  function Initial(directory: map<Assistant, User>): State
  {
    State(map[], map[], map[], None, false, directory, 0, map[])
  }

  ghost predicate Runs(s: State, steps: seq<Step>, s': State)
    decreases |steps|
  {
    if steps == [] then s == s' else Enabled(s, steps[0]) && Runs(Apply(s, steps[0]), steps[1..], s')
  }

  // ---------------------------------------------------------------- invariant

  ghost predicate CallOk(s: State, c: nat)
  {
    c in s.calls ==>
      var a := s.calls[c].assistant;
      match s.calls[c].at
      case Entered => true
      case NeedsSetup => true
      case InSetup => s.setupLock == Some(c) && !s.setupDone
      case NeedsLock => s.setupDone
      case Finding => s.setupDone && a in s.userLocks && s.userLocks[a] == c && a !in s.users
      case Creating => s.setupDone && a in s.userLocks && s.userLocks[a] == c && a !in s.users && a !in s.directory
      case Returned(u) => s.setupDone && a in s.directory && s.directory[a] == u
      case Raised => true
  }

  /** A held lock has a holder that is inside it; a cached user is the library's user. */
  ghost predicate AssistantOk(s: State, known: set<Assistant>, a: Assistant)
  {
    && (a in s.userLocks ==>
          var c := s.userLocks[a];
          && c in s.calls && s.calls[c].assistant == a
          && (s.calls[c].at.Finding? || s.calls[c].at.Creating?))
    && (a in s.users ==> s.setupDone && a in s.directory && s.directory[a] == s.users[a])
    && Count(s.creates, a) == (if a in s.directory && a !in known then 1 else 0)
    && (a in known ==> a in s.directory)
  }

  ghost predicate Inv(s: State, known: set<Assistant>)
  {
    && (forall c :: CallOk(s, c))
    && (forall a :: AssistantOk(s, known, a))
    && (s.setupLock.Some? ==> At(s, s.setupLock.value, InSetup))
    && s.setups == (if s.setupDone then 1 else 0)
  }

  /** The steps up to and including setup. */
  predicate IsSetupStep(step: Step)
  {
    step.Enter? || step.CheckCache? || step.CheckSetup? || step.TakeSetupLock? || step.SetupCompletes?
  }

  lemma CallKeptBySetup(s: State, known: set<Assistant>, step: Step, c: nat)
    requires Inv(s, known) && Enabled(s, step) && IsSetupStep(step)
    ensures CallOk(Apply(s, step), c)
  {
    assert CallOk(s, step.c) && CallOk(s, c);
    if step.CheckCache? { assert AssistantOk(s, known, s.calls[step.c].assistant); }
  }

  lemma CallKeptByUser(s: State, known: set<Assistant>, step: Step, c: nat)
    requires Inv(s, known) && Enabled(s, step) && !IsSetupStep(step)
    ensures CallOk(Apply(s, step), c)
  {
    assert CallOk(s, step.c) && CallOk(s, c);
    assert AssistantOk(s, known, s.calls[step.c].assistant);
  }

  lemma AssistantKeptBySetup(s: State, known: set<Assistant>, step: Step, a: Assistant)
    requires Inv(s, known) && Enabled(s, step) && IsSetupStep(step)
    ensures AssistantOk(Apply(s, step), known, a)
  {
    assert AssistantOk(s, known, a) && CallOk(s, step.c);
  }

  lemma AssistantKeptByUser(s: State, known: set<Assistant>, step: Step, a: Assistant)
    requires Inv(s, known) && Enabled(s, step) && !IsSetupStep(step)
    ensures AssistantOk(Apply(s, step), known, a)
  {
    assert AssistantOk(s, known, a) && CallOk(s, step.c);
  }

  lemma SetupKept(s: State, known: set<Assistant>, step: Step)
    requires Inv(s, known) && Enabled(s, step)
    ensures var s' := Apply(s, step);
            && (s'.setupLock.Some? ==> At(s', s'.setupLock.value, InSetup))
            && s'.setups == (if s'.setupDone then 1 else 0)
  {
    assert CallOk(s, step.c);
  }

  lemma StepKeepsInv(s: State, known: set<Assistant>, step: Step)
    requires Inv(s, known) && Enabled(s, step)
    ensures Inv(Apply(s, step), known)
  {
    var s' := Apply(s, step);
    forall c ensures CallOk(s', c) {
      if IsSetupStep(step) { CallKeptBySetup(s, known, step, c); } else { CallKeptByUser(s, known, step, c); }
    }
    forall a ensures AssistantOk(s', known, a) {
      if IsSetupStep(step) { AssistantKeptBySetup(s, known, step, a); } else { AssistantKeptByUser(s, known, step, a); }
    }
    SetupKept(s, known, step);
  }

  lemma {:induction false} RunsKeepInv(s: State, known: set<Assistant>, steps: seq<Step>, s': State)
    requires Inv(s, known) && Runs(s, steps, s')
    ensures Inv(s', known)
    decreases |steps|
  {
    if steps != [] {
      StepKeepsInv(s, known, steps[0]);
      RunsKeepInv(Apply(s, steps[0]), known, steps[1..], s');
    }
  }

  /** Over any interleaving: setup completes at most once, and before any lookup or create; at
      most one create per assistant succeeds, and none for a user the library knew before; and
      all calls that return for one assistant return the same user. */
  lemma OneUserPerAssistant(directory: map<Assistant, User>, steps: seq<Step>, s: State)
    requires Runs(Initial(directory), steps, s)
    ensures s.setups <= 1
    ensures forall c :: c in s.calls && (s.calls[c].at.Finding? || s.calls[c].at.Creating?) ==> s.setups == 1
    ensures forall a :: Count(s.creates, a) <= 1 && (a in directory ==> Count(s.creates, a) == 0)
    ensures forall b, c ::
              b in s.calls && c in s.calls && s.calls[b].assistant == s.calls[c].assistant
              && s.calls[b].at.Returned? && s.calls[c].at.Returned?
              ==> s.calls[b].at.user == s.calls[c].at.user
  {
    RunsKeepInv(Initial(directory), directory.Keys, steps, s);
    forall a ensures Count(s.creates, a) <= 1 && (a in directory ==> Count(s.creates, a) == 0) {
      assert AssistantOk(s, directory.Keys, a);
    }
    forall c | c in s.calls
      ensures s.calls[c].at.Finding? || s.calls[c].at.Creating? ==> s.setups == 1
      ensures s.calls[c].at.Returned? ==>
                s.calls[c].assistant in s.directory && s.directory[s.calls[c].assistant] == s.calls[c].at.user
    {
      assert CallOk(s, c);
    }
  }

  /** No lock is ever left behind: whoever holds one is still inside, so once every call has
      returned or raised, every lock is free again. */
  lemma LocksReleased(directory: map<Assistant, User>, steps: seq<Step>, s: State)
    requires Runs(Initial(directory), steps, s)
    requires forall c :: c in s.calls ==> s.calls[c].at.Returned? || s.calls[c].at.Raised?
    ensures s.userLocks == map[] && s.setupLock.None?
  {
    RunsKeepInv(Initial(directory), directory.Keys, steps, s);
    forall a ensures a !in s.userLocks { assert AssistantOk(s, directory.Keys, a); }
  }

  // ---------------------------------------------------------------- the adapter

  lemma {:induction false} RunsSnoc(s: State, steps: seq<Step>, m: State, step: Step)
    requires Runs(s, steps, m) && Enabled(m, step)
    ensures Runs(s, steps + [step], Apply(m, step))
    decreases |steps|
  {
    if steps == [] {
      assert steps + [step] == [step];
      assert Runs(Apply(s, step), [step][1..], Apply(m, step));
    } else {
      RunsSnoc(Apply(s, steps[0]), steps[1..], m, step);
      assert (steps + [step])[1..] == steps[1..] + [step];
    }
  }

  lemma CachedIsKnown(directory: map<Assistant, User>, steps: seq<Step>, s: State, a: Assistant)
    requires Runs(Initial(directory), steps, s)
    ensures a in s.users ==> a in s.directory && s.directory[a] == s.users[a]
  {
    RunsKeepInv(Initial(directory), directory.Keys, steps, s);
    assert AssistantOk(s, directory.Keys, a);
  }

  /** What the library does when it is called. */
  datatype Library = Library(setupRaises: bool, lookupRaises: bool, createRaises: bool, newUser: User)

  /** The adapter, whose calls are runs of the protocol above. */
  class Adapter {
    var users: map<Assistant, User>
    var userLocks: map<Assistant, nat>
    var setupLock: Option<nat>
    var setupDone: bool
    var directory: map<Assistant, User>
    ghost const known: map<Assistant, User>
    ghost var calls: map<nat, Call>
    ghost var setups: nat
    ghost var creates: map<Assistant, nat>
    ghost var trace: seq<Step>

    ghost function Value(): State
      reads this
    {
      State(calls, users, userLocks, setupLock, setupDone, directory, setups, creates)
    }

    ghost predicate Tracked()
      reads this
    {
      Runs(Initial(known), trace, Value())
    }

    /** Between calls the state is one the protocol reaches, with every lock free. */
    ghost predicate Valid()
      reads this
    {
      Tracked() && userLocks == map[] && setupLock.None?
    }

    constructor (directory: map<Assistant, User>)
      ensures Valid() && known == directory && calls == map[]
    {
      users, userLocks, setupLock, setupDone := map[], map[], None, false;
      this.directory, known := directory, directory;
      calls, setups, creates, trace := map[], 0, map[], [];
    }

    /** Records a step: the fields already have their new values, the history follows suit. */
    ghost method Did(before: State, step: Step)
      requires Runs(Initial(known), trace, before) && Enabled(before, step)
      requires var after := Apply(before, step);
               && users == after.users && userLocks == after.userLocks && directory == after.directory
               && setupLock == after.setupLock && setupDone == after.setupDone
      modifies this`trace, this`calls, this`setups, this`creates
      ensures Value() == Apply(before, step) && Tracked()
    {
      RunsSnoc(Initial(known), trace, before, step);
      trace := trace + [step];
      var after := Apply(before, step);
      calls, setups, creates := after.calls, after.setups, after.creates;
    }

    /** The second looks at the flag and at the cache, under the locks, can only differ from the
        first when calls interleave: that is in the protocol's steps. */
    method EnsureSetup(c: nat, raises: bool) returns (raised: bool)
      requires Valid() && At(Value(), c, NeedsSetup)
      modifies this`setupLock, this`setupDone, this`calls, this`setups, this`creates, this`trace
      ensures Valid() && At(Value(), c, if raised then Raised else NeedsLock)
      ensures calls[c].assistant == old(calls)[c].assistant
      ensures raised <==> !old(setupDone) && raises
      ensures setupDone <==> old(setupDone) || !raises
    {
      hide Runs, Inv, CallOk;
      ghost var s0 := Value();
      if setupDone {
        Did(s0, CheckSetup(c));
        return false;
      }
      setupLock := Some(c);
      Did(s0, TakeSetupLock(c));
      ghost var s1 := Value();
      if raises {
        setupLock := None;
        Did(s1, LibraryRaises(c));
        return true;
      }
      setupDone, setupLock := true, None;
      Did(s1, SetupCompletes(c));
      return false;
    }

    method AcquireUserLock(c: nat, a: Assistant)
      requires Valid() && At(Value(), c, NeedsLock) && calls[c].assistant == a && a !in users
      modifies this`userLocks, this`calls, this`setups, this`creates, this`trace
      ensures Tracked() && userLocks == map[a := c]
      ensures At(Value(), c, Finding) && calls[c].assistant == a
    {
      hide Runs, Inv, CallOk;
      ghost var s0 := Value();
      userLocks := userLocks[a := c];
      Did(s0, TakeUserLock(c));
    }

    /** An exception leaves the lock's block. */
    method Raise(c: nat, a: Assistant)
      requires Tracked() && setupLock.None? && userLocks == map[a := c]
      requires (At(Value(), c, Finding) || At(Value(), c, Creating)) && calls[c].assistant == a
      modifies this`userLocks, this`calls, this`setups, this`creates, this`trace
      ensures Valid() && At(Value(), c, Raised)
    {
      hide Runs, Inv, CallOk;
      ghost var s0 := Value();
      userLocks := userLocks - {a};
      Did(s0, LibraryRaises(c));
    }

    method Create(c: nat, a: Assistant, lib: Library) returns (r: Option<User>)
      requires Tracked() && setupLock.None? && userLocks == map[a := c]
      requires At(Value(), c, Creating) && calls[c].assistant == a
      modifies this`users, this`userLocks, this`directory, this`calls, this`setups, this`creates, this`trace
      ensures Valid() && At(Value(), c, if r.Some? then Returned(r.value) else Raised)
      ensures r == if lib.createRaises then None else Some(lib.newUser)
      ensures users == if r.Some? then old(users)[a := r.value] else old(users)
      ensures directory == if r.Some? then old(directory)[a := r.value] else old(directory)
    {
      hide Runs, Inv, CallOk;
      ghost var s0 := Value();
      if lib.createRaises {
        Raise(c, a);
        return None;
      }
      directory := directory[a := lib.newUser];
      users, userLocks := users[a := lib.newUser], userLocks - {a};
      Did(s0, CreateReturns(c, lib.newUser));
      return Some(lib.newUser);
    }

    method LookUp(c: nat, a: Assistant) returns (u: Option<User>)
      requires Tracked() && setupLock.None? && userLocks == map[a := c]
      requires At(Value(), c, Finding) && calls[c].assistant == a
      modifies this`users, this`userLocks, this`calls, this`setups, this`creates, this`trace
      ensures Tracked() && c in calls && calls[c].assistant == a
      ensures u == if a in directory then Some(directory[a]) else None
      ensures if u.None? then At(Value(), c, Creating) && users == old(users) && userLocks == map[a := c]
              else At(Value(), c, Returned(u.value)) && users == old(users)[a := u.value] && userLocks == map[]
    {
      hide Runs, Inv, CallOk;
      ghost var s0 := Value();
      u := None;
      if a in directory {
        u := Some(directory[a]);
        users, userLocks := users[a := directory[a]], userLocks - {a};
      }
      Did(s0, LookupReturns(c));
    }

    /** Under the assistant's lock: look the user up, and create it only if it is not there. */
    method FindOrCreate(c: nat, a: Assistant, lib: Library) returns (r: Option<User>)
      requires Tracked() && setupLock.None? && userLocks == map[a := c]
      requires At(Value(), c, Finding) && calls[c].assistant == a
      modifies this`users, this`userLocks, this`directory, this`calls, this`setups, this`creates, this`trace
      ensures Valid() && At(Value(), c, if r.Some? then Returned(r.value) else Raised)
      ensures r.None? <==> lib.lookupRaises || (a !in old(directory) && lib.createRaises)
      ensures r.Some? ==> r.value == if a in old(directory) then old(directory)[a] else lib.newUser
      ensures users == if r.Some? then old(users)[a := r.value] else old(users)
      ensures directory == if r.Some? && a !in old(directory) then old(directory)[a := r.value] else old(directory)
    {
      hide Runs, Inv, CallOk, Apply, Enabled;
      if lib.lookupRaises {
        Raise(c, a);
        return None;
      }
      r := LookUp(c, a);
      if r.Some? { return; }
      r := Create(c, a, lib);
    }

    /** The call starts and looks into the cache. */
    ghost method Begin(c: nat, a: Assistant)
      requires Valid() && c !in calls
      modifies this`calls, this`setups, this`creates, this`trace
      ensures Valid() && At(Value(), c, if a in users then Returned(users[a]) else NeedsSetup)
      ensures calls[c].assistant == a
    {
      hide Runs, Inv, CallOk;
      Did(Value(), Enter(c, a));
      Did(Value(), CheckCache(c));
    }

    /** One uninterrupted `_user_for` call. */
    method UserFor(c: nat, a: Assistant, lib: Library) returns (r: Option<User>)
      requires Valid() && c !in calls
      modifies this
      ensures Valid() && At(Value(), c, if r.Some? then Returned(r.value) else Raised)
      ensures r.Some? ==> r.value == if a in old(directory) then old(directory)[a] else lib.newUser
      ensures users == if r.Some? && a !in old(users) then old(users)[a := r.value] else old(users)
      ensures directory == if r.Some? && a !in old(directory) then old(directory)[a := r.value] else old(directory)
      ensures r.None? ==> a !in old(users) && (lib.setupRaises || lib.lookupRaises || lib.createRaises)
    {
      hide Runs, Apply, Enabled;
      CachedIsKnown(known, trace, Value(), a);
      Begin(c, a);
      if a in users { return Some(users[a]); }
      var raised := EnsureSetup(c, lib.setupRaises);
      if raised { return None; }
      AcquireUserLock(c, a);
      r := FindOrCreate(c, a, lib);
    }
  }
}
