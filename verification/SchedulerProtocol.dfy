// Ticks, run completions and user replies on the scheduled_tasks table, interleaved at their
// commits. FOR UPDATE SKIP LOCKED is ownership of rows by a tick in flight.
module SchedulerProtocol {
  import opened Options
  import opened ScheduledTasks

  type Id = string

  datatype Tick = Tick(now: int, claimed: set<Id>)

  /** A run completion that has read its task and has yet to write the incremented count. */
  datatype Increment = Increment(task: Id, read: nat)

  /** Per task, over committed transactions: payload mails since a reply last reset the count,
      pause notices attempted by ticks, and the occurrences that were fired. */
  datatype Log = Log(sent: nat, notices: nat, fired: seq<int>)

  datatype State = State(
    tasks: map<Id, Task>,
    ticks: map<nat, Tick>,
    increments: map<nat, Increment>,
    resets: map<nat, set<Id>>,
    dispatched: set<Id>,     // tasks for which an agent run was ever queued
    logs: map<Id, Log>)      // one entry per id ever used

  datatype Step =
    | Create(id: Id, task: Task)
    | Delete(id: Id)
    | Begin(k: nat, now: int)
    | Commit(k: nat, worlds: map<Id, World>)
    | Abort(k: nat)
    | ReadForIncrement(i: nat, id: Id)
    | WriteIncrement(i: nat)
    | ReadForReset(r: nat, assistant: string)
    | WriteReset(r: nat)

  ghost predicate Locked(s: State, id: Id)
  {
    exists k :: k in s.ticks && id in s.ticks[k].claimed
  }

  function DueUnlocked(s: State, now: int, locked: set<Id>): set<Id>
  {
    set id | id in s.tasks && Due(s.tasks[id], now) && id !in locked
  }

  ghost function LockedIds(s: State): set<Id>
  {
    set id | id in s.tasks && Locked(s, id)
  }

  predicate NewTask(t: Task)
  {
    t.status.Active? && t.unanswered == 0 && t.lastRunAt.None?
  }

  ghost predicate Enabled(s: State, step: Step)
  {
    match step
    case Create(id, t) => id !in s.logs && NewTask(t)
    case Delete(id) => id in s.tasks && !Locked(s, id)
    case Begin(k, now) => k !in s.ticks
    case Commit(k, worlds) => k in s.ticks && s.ticks[k].claimed <= worlds.Keys
    case Abort(k) => k in s.ticks
    case ReadForIncrement(i, id) => i !in s.increments && id in s.tasks && id in s.dispatched
    case WriteIncrement(i) => i in s.increments && s.increments[i].task in s.tasks && !Locked(s, s.increments[i].task)
    case ReadForReset(r, a) => r !in s.resets
    case WriteReset(r) => r in s.resets && forall id :: id in s.resets[r] ==> !Locked(s, id)
  }

  /** The log after a tick has handled one claimed row. */
  function Logged(cron: Cron, log: Log, t: Task, w: World, now: int): Log
  {
    var a := Attempted(t, w);
    var t' := After(cron, t, w, now);
    Log(log.sent + (if a.SentDirect? then 1 else 0),
        log.notices + (if a.SentDirect? && Capped(t) && t'.unanswered >= t.maxUnanswered.value then 1 else 0),
        if Fires(a) then log.fired + [t.nextRunAt] else log.fired)
  }

  ghost function Apply(cron: Cron, s: State, step: Step): State
    requires Enabled(s, step)
  {
    match step
    case Create(id, t) => s.(tasks := s.tasks[id := t], logs := s.logs[id := Log(0, 0, [])])
    case Delete(id) => s.(tasks := s.tasks - {id})
    case Begin(k, now) => s.(ticks := s.ticks[k := Tick(now, DueUnlocked(s, now, LockedIds(s)))])
    case Commit(k, worlds) =>
      var tick := s.ticks[k];
      s.(tasks := map id | id in s.tasks ::
           if id in tick.claimed then After(cron, s.tasks[id], worlds[id], tick.now) else s.tasks[id],
         logs := map id | id in s.logs ::
           if id in tick.claimed && id in s.tasks
           then Logged(cron, s.logs[id], s.tasks[id], worlds[id], tick.now) else s.logs[id],
         dispatched := s.dispatched
           + (set id | id in tick.claimed && id in s.tasks && Attempted(s.tasks[id], worlds[id]).Continued?),
         ticks := s.ticks - {k})
    case Abort(k) => s.(ticks := s.ticks - {k})
    case ReadForIncrement(i, id) => s.(increments := s.increments[i := Increment(id, s.tasks[id].unanswered)])
    case WriteIncrement(i) =>
      var inc := s.increments[i];
      s.(tasks := s.tasks[inc.task := Counted(s.tasks[inc.task], inc.read + 1)], increments := s.increments - {i})
    case ReadForReset(r, a) =>
      s.(resets := s.resets[r := set id | id in s.tasks && s.tasks[id].assistant == a && s.tasks[id].unanswered != 0])
    case WriteReset(r) =>
      s.(tasks := map id | id in s.tasks ::
           if id in s.resets[r] then s.tasks[id].(unanswered := 0) else s.tasks[id],
         logs := map id | id in s.logs ::
           if id in s.resets[r] then s.logs[id].(sent := 0) else s.logs[id],
         resets := s.resets - {r})
  }

  const EMPTY := State(map[], map[], map[], map[], {}, map[])

  ghost predicate Runs(cron: Cron, s: State, steps: seq<Step>, s': State)
    decreases |steps|
  {
    if steps == [] then s == s' else Enabled(s, steps[0]) && Runs(cron, Apply(cron, s, steps[0]), steps[1..], s')
  }

  // ---------------------------------------------------------------- invariant

  predicate DirectSend(t: Task)
  {
    t.hasCommand && !t.agentEnabled
  }

  predicate Increasing(xs: seq<int>)
  {
    forall i, j :: 0 <= i < j < |xs| ==> xs[i] < xs[j]
  }

  /** Fired occurrences are in the past of the next one, each fired once. */
  predicate FiredOnce(t: Task, fired: seq<int>)
  {
    && Increasing(fired)
    && (t.kind.Repeat? ==> forall x :: x in fired ==> x < t.nextRunAt)
    && (t.kind.Once? ==> |fired| <= 1 && (fired != [] <==> t.status.Completed?))
  }

  /** For a task whose commands mail the user directly, the count is exactly what was sent since
      the last reply, and the pause came with the mail that reached the cap. */
  predicate DirectCounted(t: Task, log: Log)
  {
    DirectSend(t) && Capped(t) ==>
      && log.sent == t.unanswered
      && log.sent <= t.maxUnanswered.value
      && log.notices == if t.status.Paused? then 1 else 0
  }

  predicate TaskInv(t: Task, log: Log)
  {
    && (t.status.Active? && Capped(t) ==> t.unanswered < t.maxUnanswered.value)
    && (t.status.Paused? ==> Capped(t))
    && (t.status.Completed? ==> t.kind.Once?)
    && DirectCounted(t, log)
    && FiredOnce(t, log.fired)
  }

  ghost predicate TaskOk(s: State, id: Id)
  {
    id in s.tasks ==> id in s.logs && TaskInv(s.tasks[id], s.logs[id])
  }

  ghost predicate NeverDirect(s: State, id: Id)
  {
    (id in s.dispatched ==> id in s.logs) && (id in s.dispatched && id in s.tasks ==> !DirectSend(s.tasks[id]))
  }

  /** A tick in flight still sees the rows it claimed as it claimed them: active and due. */
  ghost predicate ClaimOk(s: State, k: nat)
  {
    k in s.ticks ==> forall id :: id in s.ticks[k].claimed ==> id in s.tasks && Due(s.tasks[id], s.ticks[k].now)
  }

  ghost predicate DisjointClaims(s: State, j: nat, k: nat)
  {
    j in s.ticks && k in s.ticks && j != k ==> s.ticks[j].claimed !! s.ticks[k].claimed
  }

  ghost predicate IncrementOk(s: State, i: nat)
  {
    i in s.increments ==> s.increments[i].task in s.dispatched
  }

  ghost predicate Inv(s: State)
  {
    && (forall id :: TaskOk(s, id))
    && (forall id :: NeverDirect(s, id))
    && (forall k :: ClaimOk(s, k))
    && (forall j, k :: DisjointClaims(s, j, k))
    && (forall i :: IncrementOk(s, i))
  }

  lemma FiringKeeps(cron: Cron, t: Task, log: Log, w: World, now: int)
    requires FiredOnce(t, log.fired) && Due(t, now)
    ensures FiredOnce(After(cron, t, w, now), Logged(cron, log, t, w, now).fired)
  {
    if Fires(Attempted(t, w)) && t.kind.Repeat? {
      IncreasingSnoc(log.fired, t.nextRunAt);
      assert now < cron(t.kind.cronExpr, now);
    }
  }

  lemma IncreasingSnoc(xs: seq<int>, x: int)
    requires Increasing(xs) && forall y :: y in xs ==> y < x
    ensures Increasing(xs + [x]) && forall y :: y in xs + [x] ==> y <= x
  {
    assert forall i :: 0 <= i < |xs| ==> xs[i] in xs;
  }

  /** Handling one due row keeps what is known about it. */
  lemma HandlingKeeps(cron: Cron, t: Task, log: Log, w: World, now: int)
    requires TaskInv(t, log) && Due(t, now)
    ensures TaskInv(After(cron, t, w, now), Logged(cron, log, t, w, now))
    ensures DirectSend(t) ==> !Attempted(t, w).Continued?
  {
    hide FiredOnce;
    FiringKeeps(cron, t, log, w, now);
  }

  lemma CommitKeepsInv(cron: Cron, s: State, k: nat, worlds: map<Id, World>)
    requires Inv(s) && Enabled(s, Commit(k, worlds))
    ensures Inv(Apply(cron, s, Commit(k, worlds)))
  {
    var s' := Apply(cron, s, Commit(k, worlds));
    forall id ensures TaskOk(s', id) && NeverDirect(s', id) {
      assert TaskOk(s, id) && NeverDirect(s, id) && ClaimOk(s, k);
      if id in s.tasks && id in s.ticks[k].claimed {
        HandlingKeeps(cron, s.tasks[id], s.logs[id], worlds[id], s.ticks[k].now);
      }
    }
    forall j ensures ClaimOk(s', j) { assert ClaimOk(s, j) && DisjointClaims(s, j, k); }
    forall j, l ensures DisjointClaims(s', j, l) { assert DisjointClaims(s, j, l); }
    forall i ensures IncrementOk(s', i) { assert IncrementOk(s, i); }
  }

  lemma WriteKeepsInv(cron: Cron, s: State, step: Step)
    requires Inv(s) && Enabled(s, step) && (step.WriteIncrement? || step.WriteReset?)
    ensures Inv(Apply(cron, s, step))
  {
    var s' := Apply(cron, s, step);
    forall id ensures TaskOk(s', id) && NeverDirect(s', id) {
      assert TaskOk(s, id) && NeverDirect(s, id);
      if step.WriteIncrement? { assert IncrementOk(s, step.i); }
    }
    forall k ensures ClaimOk(s', k) {
      assert ClaimOk(s, k);
      if k in s.ticks {
        forall id | id in s.ticks[k].claimed
          ensures id in s'.tasks && Due(s'.tasks[id], s.ticks[k].now)
        {
          assert Locked(s, id);
        }
      }
    }
    forall j, k ensures DisjointClaims(s', j, k) { assert DisjointClaims(s, j, k); }
    forall i ensures IncrementOk(s', i) { assert IncrementOk(s, i); }
  }

  lemma OtherStepKeepsInv(cron: Cron, s: State, step: Step)
    requires Inv(s) && Enabled(s, step) && !step.Commit? && !step.WriteIncrement? && !step.WriteReset?
    ensures Inv(Apply(cron, s, step))
  {
    var s' := Apply(cron, s, step);
    forall id ensures TaskOk(s', id) && NeverDirect(s', id) { assert TaskOk(s, id) && NeverDirect(s, id); }
    forall k ensures ClaimOk(s', k) {
      assert ClaimOk(s, k);
      if k in s.ticks {
        forall id | id in s.ticks[k].claimed
          ensures id in s'.tasks && s'.tasks[id] == s.tasks[id]
        {
          assert Locked(s, id) && TaskOk(s, id);
        }
      }
    }
    forall j, k ensures DisjointClaims(s', j, k) {
      assert DisjointClaims(s, j, k);
      if j in s.ticks { assert ClaimOk(s, j); assert forall id :: id in s.ticks[j].claimed ==> Locked(s, id); }
      if k in s.ticks { assert ClaimOk(s, k); assert forall id :: id in s.ticks[k].claimed ==> Locked(s, id); }
    }
    forall i ensures IncrementOk(s', i) { assert IncrementOk(s, i); }
  }

  lemma StepKeepsInv(cron: Cron, s: State, step: Step)
    requires Inv(s) && Enabled(s, step)
    ensures Inv(Apply(cron, s, step))
  {
    if step.Commit? {
      CommitKeepsInv(cron, s, step.k, step.worlds);
    } else if step.WriteIncrement? || step.WriteReset? {
      WriteKeepsInv(cron, s, step);
    } else {
      OtherStepKeepsInv(cron, s, step);
    }
  }

  lemma {:induction false} RunsKeepInv(cron: Cron, s: State, steps: seq<Step>, s': State)
    requires Inv(s) && Runs(cron, s, steps, s')
    ensures Inv(s')
    decreases |steps|
  {
    if steps != [] {
      StepKeepsInv(cron, s, steps[0]);
      RunsKeepInv(cron, Apply(cron, s, steps[0]), steps[1..], s');
    }
  }

  // ---------------------------------------------------------------- results

  /** However ticks, stale increments and resets interleave, an active capped task is below its
      cap; each occurrence is fired at most once; and concurrent ticks hold disjoint rows. */
  lemma CapHoldsInEveryRun(cron: Cron, steps: seq<Step>, s: State)
    requires Runs(cron, EMPTY, steps, s)
    ensures forall id, cap ::
              id in s.tasks && s.tasks[id].status.Active? && s.tasks[id].kind.Repeat?
              && s.tasks[id].maxUnanswered == Some(cap) && cap > 0
              ==> s.tasks[id].unanswered < cap
    ensures forall id :: id in s.tasks ==> id in s.logs && FiredOnce(s.tasks[id], s.logs[id].fired)
    ensures forall j, k :: j in s.ticks && k in s.ticks && j != k ==> s.ticks[j].claimed !! s.ticks[k].claimed
  {
    RunsKeepInv(cron, EMPTY, steps, s);
    forall id | id in s.tasks ensures id in s.logs && TaskInv(s.tasks[id], s.logs[id]) { assert TaskOk(s, id); }
    forall j, k | j in s.ticks && k in s.ticks && j != k
      ensures s.ticks[j].claimed !! s.ticks[k].claimed
    {
      assert DisjointClaims(s, j, k);
    }
  }

  /** A direct-send task with cap M has mailed at most M times since the last reply that reset
      it, is paused once it has mailed M times, and its pause is announced at most once ever. */
  lemma DirectSendCapped(cron: Cron, steps: seq<Step>, s: State, id: Id, cap: int)
    requires Runs(cron, EMPTY, steps, s)
    requires id in s.tasks && s.tasks[id].hasCommand && !s.tasks[id].agentEnabled
    requires s.tasks[id].kind.Repeat? && s.tasks[id].maxUnanswered == Some(cap) && cap > 0
    ensures id in s.logs
    ensures s.logs[id].sent <= cap
    ensures s.logs[id].sent == cap ==> s.tasks[id].status.Paused?
    ensures s.logs[id].notices == if s.tasks[id].status.Paused? then 1 else 0
  {
    RunsKeepInv(cron, EMPTY, steps, s);
    assert TaskOk(s, id);
  }

  /** What a tick claims when it begins: every active row whose time has come and that no other
      tick in flight holds. */
  lemma ClaimsAre(cron: Cron, s: State, k: nat, now: int, id: Id)
    requires Enabled(s, Begin(k, now))
    ensures id in Apply(cron, s, Begin(k, now)).ticks[k].claimed <==>
            && id in s.tasks && s.tasks[id].status == Active && s.tasks[id].nextRunAt <= now
            && forall j :: j in s.ticks ==> id !in s.ticks[j].claimed
  {
  }

  /** A user's reply resets the counters of the assistant's tasks that were not zero, pauses or
      completes nothing, and touches no other assistant's. */
  lemma ReplyResets(cron: Cron, s: State, r: nat, a: string, id: Id)
    requires Enabled(s, ReadForReset(r, a)) && id in s.tasks
    requires Enabled(Apply(cron, s, ReadForReset(r, a)), WriteReset(r))
    ensures var t' := Apply(cron, Apply(cron, s, ReadForReset(r, a)), WriteReset(r)).tasks[id];
            t' == s.tasks[id].(unanswered := if s.tasks[id].assistant == a then 0 else s.tasks[id].unanswered)
  {
  }

  /** Each visible notification of an agent run counts one, and the one that reaches the cap pauses
      the task: after `n` of them without a reply in between the count is up by `n`, and the task
      is paused if and only if that is its cap or more. */
  lemma {:induction false} NotificationsPause(cron: Cron, s: State, id: Id, i: nat, n: nat)
    returns (steps: seq<Step>, s': State)
    requires id in s.tasks && id in s.dispatched && !Locked(s, id) && i !in s.increments && n > 0
    requires s.tasks[id].status == Active
    ensures Runs(cron, s, steps, s') && id in s'.tasks && s'.ticks == s.ticks && s'.dispatched == s.dispatched
    ensures i !in s'.increments && s'.tasks[id].unanswered == s.tasks[id].unanswered + n
    ensures s'.tasks[id].kind == s.tasks[id].kind && s'.tasks[id].maxUnanswered == s.tasks[id].maxUnanswered
    ensures s'.tasks[id].status ==
            if s.tasks[id].kind.Repeat? && s.tasks[id].maxUnanswered.Some?
               && 0 < s.tasks[id].maxUnanswered.value <= s'.tasks[id].unanswered
            then Paused else Active
  {
    var xs: seq<Step>, s1 := [], s;
    if n > 1 { xs, s1 := NotificationsPause(cron, s, id, i, n - 1); }
    var s2 := Apply(cron, s1, ReadForIncrement(i, id));
    s' := Apply(cron, s2, WriteIncrement(i));
    RunsSnoc(cron, s, xs, s1, ReadForIncrement(i, id));
    RunsSnoc(cron, s, xs + [ReadForIncrement(i, id)], s2, WriteIncrement(i));
    steps := xs + [ReadForIncrement(i, id)] + [WriteIncrement(i)];
  }

  lemma {:induction false} RunsSnoc(cron: Cron, a: State, xs: seq<Step>, b: State, step: Step)
    requires Runs(cron, a, xs, b) && Enabled(b, step)
    ensures Runs(cron, a, xs + [step], Apply(cron, b, step))
    decreases |xs|
  {
    if xs == [] {
      assert xs + [step] == [step];
      assert Runs(cron, Apply(cron, a, step), [step][1..], Apply(cron, b, step));
    } else {
      RunsSnoc(cron, Apply(cron, a, xs[0]), xs[1..], b, step);
      assert (xs + [step])[1..] == xs[1..] + [step];
    }
  }

  /** Nothing un-pauses or un-completes a task, so no later tick ever claims it. */
  lemma {:induction false} StoppedStays(cron: Cron, s: State, steps: seq<Step>, s': State, id: Id)
    requires Inv(s) && Runs(cron, s, steps, s')
    requires id in s.tasks && !s.tasks[id].status.Active?
    ensures id in s'.tasks ==> !s'.tasks[id].status.Active?
    ensures forall now :: id !in DueUnlocked(s', now, LockedIds(s'))
    decreases |steps|
  {
    if steps != [] {
      var m := Apply(cron, s, steps[0]);
      StepKeepsInv(cron, s, steps[0]);
      StoppedStep(cron, s, steps[0], id);
      if id in m.tasks {
        StoppedStays(cron, m, steps[1..], s', id);
      } else {
        DeletedStays(cron, m, steps[1..], s', id);
      }
    }
  }

  lemma StoppedStep(cron: Cron, s: State, step: Step, id: Id)
    requires Inv(s) && Enabled(s, step) && id in s.tasks && !s.tasks[id].status.Active?
    ensures id in Apply(cron, s, step).logs
    ensures id in Apply(cron, s, step).tasks ==> !Apply(cron, s, step).tasks[id].status.Active?
  {
    assert TaskOk(s, id);
    if step.Commit? { assert ClaimOk(s, step.k); }
  }

  lemma {:induction false} DeletedStays(cron: Cron, s: State, steps: seq<Step>, s': State, id: Id)
    requires Runs(cron, s, steps, s') && id !in s.tasks && id in s.logs
    ensures id !in s'.tasks
    decreases |steps|
  {
    if steps != [] {
      DeletedStays(cron, Apply(cron, s, steps[0]), steps[1..], s', id);
    }
  }

  /** A committed tick completes every once-row it fired, moves every cron-row it fired past
      `now`, and leaves every other row, claimed or not, as it was. */
  lemma CommitEffect(cron: Cron, s: State, k: nat, worlds: map<Id, World>, id: Id)
    requires Inv(s) && Enabled(s, Commit(k, worlds)) && id in s.tasks
    ensures var s' := Apply(cron, s, Commit(k, worlds));
            var tick := s.ticks[k];
            if id in tick.claimed && Fires(Attempted(s.tasks[id], worlds[id]))
            then Fired(cron, s.tasks[id], s'.tasks[id], tick.now)
            else s'.tasks[id] == s.tasks[id]
  {
    assert ClaimOk(s, k);
    if id in s.ticks[k].claimed {
      DueAgain(cron, s.tasks[id], worlds[id], s.ticks[k].now);
    }
  }

  /** A second tick at the same time claims, of the rows of the first, exactly those that it
      did not fire. */
  lemma SecondTickRevisitsFailures(cron: Cron, s: State, k: nat, worlds: map<Id, World>, l: nat, id: Id)
    requires Inv(s) && Enabled(s, Commit(k, worlds)) && id in s.ticks[k].claimed
    requires Enabled(Apply(cron, s, Commit(k, worlds)), Begin(l, s.ticks[k].now))
    ensures id in s.tasks
    ensures id in Apply(cron, Apply(cron, s, Commit(k, worlds)), Begin(l, s.ticks[k].now)).ticks[l].claimed
            <==> !Fires(Attempted(s.tasks[id], worlds[id]))
  {
    var m := Apply(cron, s, Commit(k, worlds));
    assert ClaimOk(s, k);
    DueAgain(cron, s.tasks[id], worlds[id], s.ticks[k].now);
    forall j | j in m.ticks ensures id !in m.ticks[j].claimed { assert DisjointClaims(s, j, k); }
    assert id !in LockedIds(m);
  }

  /** An aborted tick changes no row and gives back its claims: a tick at the same time then
      claims exactly its rows and whatever was due and free besides. */
  lemma AbortEffect(cron: Cron, s: State, k: nat, l: nat)
    requires Inv(s) && Enabled(s, Abort(k)) && (l !in s.ticks || l == k)
    ensures Apply(cron, s, Abort(k)).tasks == s.tasks && Apply(cron, s, Abort(k)).logs == s.logs
    ensures Apply(cron, Apply(cron, s, Abort(k)), Begin(l, s.ticks[k].now)).ticks[l].claimed ==
            s.ticks[k].claimed + DueUnlocked(s, s.ticks[k].now, LockedIds(s))
  {
    var m := Apply(cron, s, Abort(k));
    assert ClaimOk(s, k);
    forall id | id in s.tasks ensures Locked(m, id) <==> Locked(s, id) && id !in s.ticks[k].claimed {
      forall j | j in m.ticks ensures id in m.ticks[j].claimed ==> id !in s.ticks[k].claimed && Locked(s, id) {
        assert DisjointClaims(s, j, k);
      }
      if j :| j in s.ticks && id in s.ticks[j].claimed && j != k { assert j in m.ticks; }
    }
  }

  // ---------------------------------------------------------------- the loop is a commit

  /** The tick's loop over the rows it claimed computes exactly what the protocol's commit writes:
      the rows, the payload mails and the pause notices. */
  method CommitByTick(cron: Cron, ghost s: State, ghost k: nat, ids: seq<Id>, rows: seq<TaskRow>,
                      worlds: map<Id, World>, now: int)
    returns (fires: seq<seq<Fire>>, payloads: seq<nat>, notices: seq<nat>)
    requires Inv(s) && k in s.ticks && now == s.ticks[k].now
    requires |ids| == |rows| && ScheduledTasks.Distinct(rows) && forall id :: id in ids <==> id in s.ticks[k].claimed
    requires forall i :: 0 <= i < |ids| ==> ids[i] in s.tasks && ids[i] in worlds && rows[i].Value() == s.tasks[ids[i]]
    modifies rows
    ensures Enabled(s, Commit(k, worlds)) && |fires| == |payloads| == |notices| == |rows|
    ensures var s' := Apply(cron, s, Commit(k, worlds));
            && (forall id :: id in s.tasks && id !in ids ==> s'.tasks[id] == s.tasks[id])
            && forall i :: 0 <= i < |ids| ==> Committed(s, s', ids[i], rows[i].Value(), payloads[i], notices[i])
  {
    ghost var before := ScheduledTasks.Values(rows);
    fires, payloads, notices :=
      ScheduledTasks.Tick(cron, rows, seq(|ids|, i requires 0 <= i < |ids| => worlds[ids[i]]), now);
    ghost var s' := Apply(cron, s, Commit(k, worlds));
    forall i | 0 <= i < |ids| ensures Committed(s, s', ids[i], rows[i].Value(), payloads[i], notices[i]) {
      assert TaskOk(s, ids[i]) && ClaimOk(s, k) && before[i] == s.tasks[ids[i]];
      HandledIsLogged(cron, s.logs[ids[i]], before[i], rows[i].Value(), worlds[ids[i]], now,
                      fires[i], payloads[i], notices[i]);
    }
  }

  ghost predicate Committed(s: State, s': State, id: Id, t: Task, payloads: nat, notices: nat)
  {
    && id in s.logs && id in s'.tasks && id in s'.logs && s'.tasks[id] == t
    && s'.logs[id].sent == s.logs[id].sent + payloads && s'.logs[id].notices == s.logs[id].notices + notices
  }

  lemma HandledIsLogged(cron: Cron, log: Log, t: Task, t': Task, w: World, now: int,
                        fires: seq<Fire>, payloads: nat, notices: nat)
    requires Handled(cron, t, t', w, now, fires, payloads, notices)
    ensures Logged(cron, log, t, w, now).sent == log.sent + payloads
    ensures Logged(cron, log, t, w, now).notices == log.notices + notices
    ensures Logged(cron, log, t, w, now).fired ==
            if Fires(Attempted(t, w)) then log.fired + [t.nextRunAt] else log.fired
  {
  }
}
