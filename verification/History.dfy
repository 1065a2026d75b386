// Message histories handed from run to run of a thread. Runs of one assistant hold its lock one
// at a time; an agent's messages extend the history it was given.
module History {
  import opened Options
  import opened RunStatus

  type RunId = string
  type ThreadId = string
  type Message = string

  datatype Row = Row(thread: ThreadId, status: Status, completedAt: int, history: Option<seq<Message>>)

  /** The job that holds the assistant's lock, and the prior history once it has been loaded. */
  datatype Job = NoJob | Job(run: RunId, loaded: bool, given: Option<seq<Message>>)

  datatype State = State(rows: map<RunId, Row>, job: Job, clock: int)

  datatype Step =
    | Queue(run: RunId, thread: ThreadId)
    | Start(run: RunId)
    | Load(source: Option<RunId>)
    | Finish(quiet: bool, extra: seq<Message>, at: int)
    | FinishLimited(at: int)
    | Relabel
    | Fail(at: int)
    | End

  /** Runs that `_load_prior_thread_history` considers. */
  ghost predicate Eligible(s: State, q: RunId, thread: ThreadId)
  {
    && q in s.rows && s.rows[q].thread == thread
    && (s.rows[q].status.Completed? || s.rows[q].status.QuietExited?) && s.rows[q].history.Some?
  }

  /** The row the query returns: of the eligible ones other than the current run, the last completed. */
  ghost predicate IsPrior(s: State, source: Option<RunId>, thread: ThreadId, current: RunId)
  {
    match source
    case None => forall q :: Eligible(s, q, thread) ==> q == current
    case Some(p) =>
      && Eligible(s, p, thread) && p != current
      && forall q :: Eligible(s, q, thread) && q != current ==> s.rows[q].completedAt <= s.rows[p].completedAt
  }

  ghost predicate Holds(s: State)
  {
    s.job.Job? && s.job.run in s.rows
  }

  ghost predicate Enabled(s: State, step: Step)
  {
    match step
    case Queue(r, t) => r !in s.rows
    case Start(r) => s.job.NoJob? && r in s.rows && !Terminal(s.rows[r].status)
    case Load(p) => Holds(s) && !s.job.loaded && !Terminal(s.rows[s.job.run].status)
                    && IsPrior(s, p, s.rows[s.job.run].thread, s.job.run)
    case Finish(_, _, at) => Holds(s) && s.job.loaded && !Terminal(s.rows[s.job.run].status) && at > s.clock
    case FinishLimited(at) => Holds(s) && !s.job.loaded && !Terminal(s.rows[s.job.run].status) && at > s.clock
    case Relabel => Holds(s) && !s.job.loaded && s.rows[s.job.run].status.Completed?
    case Fail(at) => Holds(s) && at > s.clock
    case End => s.job.Job?
  }

  /** What the agent's messages are: the history it was given, then its own. */
  function Extended(given: Option<seq<Message>>, extra: seq<Message>): seq<Message>
  {
    (if given.Some? then given.value else []) + extra
  }

  ghost function Apply(s: State, step: Step): State
    requires Enabled(s, step)
  {
    match step
    case Queue(r, t) => s.(rows := s.rows[r := Row(t, Queued, 0, None)])
    case Start(r) => s.(job := Job(r, false, None), rows := s.rows[r := s.rows[r].(status := Running)])
    case Load(p) => s.(job := s.job.(loaded := true, given := if p.Some? then s.rows[p.value].history else None))
    case Finish(quiet, extra, at) =>
      var messages := Extended(s.job.given, extra);
      Update(s, s.rows[s.job.run].(status := if quiet then QuietExited else Completed, completedAt := at,
                                   history := if messages == [] then s.rows[s.job.run].history else Some(messages)), at)
    case FinishLimited(at) => Update(s, s.rows[s.job.run].(status := Completed, completedAt := at), at)
    case Relabel => Update(s, s.rows[s.job.run].(status := BudgetLimited), s.clock)
    case Fail(at) => Update(s, s.rows[s.job.run].(status := Failed, completedAt := at), at)
    case End => s.(job := NoJob)
  }

  function Update(s: State, row: Row, clock: int): State
    requires s.job.Job?
  {
    s.(rows := s.rows[s.job.run := row], clock := clock)
  }

  const EMPTY := State(map[], NoJob, 0)

  ghost predicate Runs(s: State, steps: seq<Step>, s': State)
    decreases |steps|
  {
    if steps == [] then s == s' else Enabled(s, steps[0]) && Runs(Apply(s, steps[0]), steps[1..], s')
  }

  // ---------------------------------------------------------------- invariant

  /** Of two eligible runs of a thread, the earlier one's history is a prefix of the later one's. */
  ghost predicate Chained(s: State, p: RunId, q: RunId, thread: ThreadId)
  {
    Eligible(s, p, thread) && Eligible(s, q, thread) && s.rows[p].completedAt < s.rows[q].completedAt ==>
      s.rows[p].history.value <= s.rows[q].history.value
  }

  ghost predicate Timed(s: State, p: RunId, q: RunId, thread: ThreadId)
  {
    && (Eligible(s, p, thread) ==> s.rows[p].completedAt <= s.clock)
    && (Eligible(s, p, thread) && Eligible(s, q, thread) && s.rows[p].completedAt == s.rows[q].completedAt ==> p == q)
  }

  /** What a loaded job was given extends every history that is on record for its thread. */
  ghost predicate Given(s: State, p: RunId)
  {
    s.job.Job? && s.job.loaded && s.job.run in s.rows && p != s.job.run && Eligible(s, p, s.rows[s.job.run].thread) ==>
      s.job.given.Some? && s.rows[p].history.value <= s.job.given.value
  }

  /** Only a finished row has a history, and only a loaded job's row has one of its own. */
  ghost predicate OpenRow(s: State, r: RunId)
  {
    r in s.rows && (!Terminal(s.rows[r].status) || (s.job.Job? && s.job.run == r && !s.job.loaded)) ==>
      s.rows[r].history.None?
  }

  ghost predicate Inv(s: State)
  {
    && (s.job.Job? ==> s.job.run in s.rows)
    && (forall p, q, t :: Chained(s, p, q, t))
    && (forall p, q, t :: Timed(s, p, q, t))
    && (forall p :: Given(s, p))
    && (forall r :: OpenRow(s, r))
  }

  lemma FinishKeepsInv(s: State, step: Step)
    requires Inv(s) && Enabled(s, step) && step.Finish?
    ensures Inv(Apply(s, step))
  {
    var s' := Apply(s, step);
    var r := s.job.run;
    assert OpenRow(s, r);
    forall p, t ensures p != r ==> (Eligible(s', p, t) <==> Eligible(s, p, t)) {}
    forall p, q, t ensures Chained(s', p, q, t) {
      assert Chained(s, p, q, t) && Timed(s, p, q, t) && Timed(s, q, p, t) && Given(s, p);
    }
    forall p, q, t ensures Timed(s', p, q, t) { assert Timed(s, p, q, t) && Timed(s, q, p, t); }
    forall p ensures Given(s', p) { assert Given(s, p); }
    forall q ensures OpenRow(s', q) { assert OpenRow(s, q); }
  }

  lemma LoadKeepsInv(s: State, step: Step)
    requires Inv(s) && Enabled(s, step) && step.Load?
    ensures Inv(Apply(s, step))
  {
    var s' := Apply(s, step);
    var r := s.job.run;
    var t := s.rows[r].thread;
    forall p, u ensures Eligible(s', p, u) <==> Eligible(s, p, u) {}
    forall p, q, u ensures Chained(s', p, q, u) && Timed(s', p, q, u) {
      assert Chained(s, p, q, u) && Timed(s, p, q, u);
    }
    forall q ensures OpenRow(s', q) { assert OpenRow(s, q); }
    forall p ensures Given(s', p) {
      if p != r && Eligible(s, p, t) {
        var src := step.source.value;
        assert Chained(s, p, src, t) && Timed(s, p, src, t);
      }
    }
  }

  lemma OtherStepKeepsInv(s: State, step: Step)
    requires Inv(s) && Enabled(s, step) && !step.Finish? && !step.Load?
    ensures Inv(Apply(s, step))
  {
    var s' := Apply(s, step);
    if step.FinishLimited? || step.Relabel? { assert OpenRow(s, s.job.run); }
    forall p, t ensures Eligible(s', p, t) ==> Eligible(s, p, t) && s'.rows[p] == s.rows[p] {
      assert OpenRow(s, p);
    }
    forall p, q, t ensures Chained(s', p, q, t) && Timed(s', p, q, t) {
      assert Chained(s, p, q, t) && Timed(s, p, q, t);
    }
    forall p ensures Given(s', p) { assert Given(s, p); }
    forall q ensures OpenRow(s', q) { assert OpenRow(s, q); }
  }

  lemma StepKeepsInv(s: State, step: Step)
    requires Inv(s) && Enabled(s, step)
    ensures Inv(Apply(s, step))
  {
    if step.Finish? {
      FinishKeepsInv(s, step);
    } else if step.Load? {
      LoadKeepsInv(s, step);
    } else {
      OtherStepKeepsInv(s, step);
    }
  }

  lemma {:induction false} RunsKeepInv(s: State, steps: seq<Step>, s': State)
    requires Inv(s) && Runs(s, steps, s')
    ensures Inv(s')
    decreases |steps|
  {
    if steps != [] {
      StepKeepsInv(s, steps[0]);
      RunsKeepInv(Apply(s, steps[0]), steps[1..], s');
    }
  }

  /** In every reachable state the stored histories of a thread's completed and quietly exited
      runs form a chain of prefixes in completion order, whatever failed, was limited, or was
      completed and then failed in between; and a job that has loaded its history was given one
      that extends all of them. */
  lemma HistoriesChain(steps: seq<Step>, s: State, thread: ThreadId)
    requires Runs(EMPTY, steps, s)
    ensures forall p, q :: Eligible(s, p, thread) && Eligible(s, q, thread)
                           && s.rows[p].completedAt <= s.rows[q].completedAt ==>
              s.rows[p].history.value <= s.rows[q].history.value
    ensures Holds(s) && s.job.loaded && s.rows[s.job.run].thread == thread ==>
              forall p :: Eligible(s, p, thread) && p != s.job.run ==>
                s.job.given.Some? && s.rows[p].history.value <= s.job.given.value
  {
    RunsKeepInv(EMPTY, steps, s);
    forall p, q | Eligible(s, p, thread) && Eligible(s, q, thread) && s.rows[p].completedAt <= s.rows[q].completedAt
      ensures s.rows[p].history.value <= s.rows[q].history.value
    {
      assert Chained(s, p, q, thread) && Timed(s, p, q, thread);
    }
    forall p | Holds(s) && s.job.loaded && s.rows[s.job.run].thread == thread
               && Eligible(s, p, thread) && p != s.job.run
      ensures s.job.given.Some? && s.rows[p].history.value <= s.job.given.value
    {
      assert Given(s, p);
    }
  }

  /** A run that has ended keeps the history it ended with. */
  lemma {:induction false} EndedStays(s: State, steps: seq<Step>, s': State, r: RunId)
    requires Inv(s) && Runs(s, steps, s') && r in s.rows && Terminal(s.rows[r].status)
    ensures r in s'.rows && Terminal(s'.rows[r].status)
    ensures s'.rows[r].thread == s.rows[r].thread && s'.rows[r].history == s.rows[r].history
    decreases |steps|
  {
    if steps != [] {
      StepKeepsInv(s, steps[0]);
      EndedStays(Apply(s, steps[0]), steps[1..], s', r);
    }
  }

  /** What a run was given and what it added itself is what the next run of its thread is given
      first, whatever ran in between, unless the run was marked failed after all. */
  lemma OwnMessagesHandedOn(s: State, quiet: bool, extra: seq<Message>, at: int, steps: seq<Step>, s': State,
                            thread: ThreadId)
    requires Inv(s) && Enabled(s, Finish(quiet, extra, at)) && Runs(Apply(s, Finish(quiet, extra, at)), steps, s')
    requires extra != [] && s.rows[s.job.run].thread == thread
    requires Holds(s') && s'.job.loaded && s'.job.run != s.job.run && s'.rows[s'.job.run].thread == thread
    ensures s.job.run in s'.rows
    ensures s'.rows[s.job.run].status in {Completed, QuietExited} ==>
              && s'.job.given.Some?
              && (if s.job.given.Some? then s.job.given.value else []) + extra <= s'.job.given.value
  {
    var r := s.job.run;
    var s1 := Apply(s, Finish(quiet, extra, at));
    StepKeepsInv(s, Finish(quiet, extra, at));
    EndedStays(s1, steps, s', r);
    RunsKeepInv(s1, steps, s');
    assert Given(s', r);
  }

  /** What a loaded job was given is the history of a run of its own thread that has ended. */
  ghost predicate GivenBy(s: State, q: RunId)
  {
    && Holds(s) && q in s.rows && q != s.job.run && s.rows[q].thread == s.rows[s.job.run].thread
    && s.rows[q].status in {Completed, QuietExited} && s.rows[q].history == s.job.given
  }

  ghost predicate GivenOwn(s: State)
  {
    Holds(s) && s.job.loaded && s.job.given.Some? ==> exists q :: GivenBy(s, q)
  }

  lemma StepKeepsGiven(s: State, step: Step)
    requires Inv(s) && GivenOwn(s) && Enabled(s, step)
    ensures GivenOwn(Apply(s, step))
  {
    var s' := Apply(s, step);
    if Holds(s') && s'.job.loaded && s'.job.given.Some? {
      if step.Load? {
        assert GivenBy(s', step.source.value);
      } else {
        var q :| GivenBy(s, q);
        assert GivenBy(s', q);
      }
    }
  }

  lemma {:induction false} RunsKeepGiven(s: State, steps: seq<Step>, s': State)
    requires Inv(s) && GivenOwn(s) && Runs(s, steps, s')
    ensures GivenOwn(s')
    decreases |steps|
  {
    if steps != [] {
      StepKeepsInv(s, steps[0]);
      StepKeepsGiven(s, steps[0]);
      RunsKeepGiven(Apply(s, steps[0]), steps[1..], s');
    }
  }

  /** In every reachable state a loaded job was given the longest history of the other completed or
      quietly exited runs of its own thread, and nothing exactly when none of them has one. */
  lemma GivenIsThreads(steps: seq<Step>, s: State)
    requires Runs(EMPTY, steps, s) && Holds(s) && s.job.loaded
    ensures forall q :: q in s.rows && q != s.job.run && s.rows[q].thread == s.rows[s.job.run].thread
                        && s.rows[q].status in {Completed, QuietExited} && s.rows[q].history.Some? ==>
                          s.job.given.Some? && s.rows[q].history.value <= s.job.given.value
    ensures s.job.given.Some? ==>
              exists q :: && q in s.rows && q != s.job.run && s.rows[q].thread == s.rows[s.job.run].thread
                          && s.rows[q].status in {Completed, QuietExited} && s.rows[q].history == s.job.given
  {
    RunsKeepInv(EMPTY, steps, s);
    RunsKeepGiven(EMPTY, steps, s);
    forall q | q in s.rows && q != s.job.run && s.rows[q].thread == s.rows[s.job.run].thread
               && s.rows[q].status in {Completed, QuietExited} && s.rows[q].history.Some?
      ensures s.job.given.Some? && s.rows[q].history.value <= s.job.given.value
    {
      assert Given(s, q);
    }
    if s.job.given.Some? {
      var q :| GivenBy(s, q);
    }
  }
}
