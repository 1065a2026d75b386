// The runtime's acceptance calls over the stored tables. Every call is itself a run of the
// protocol in InboundProtocol, so all that holds in every reachable state holds here.
module InboundRuntime {
  import opened Options
  import opened Threading
  import opened InboundProtocol
  import RunFooter
  import ScheduledTasks

  /** Ids for the rows a call may insert. */
  datatype NewIds = NewIds(thread: ThreadId, message: MessageId, run: RunId)

  /** Which awaited calls after the persisting transaction raise. */
  datatype Faults = Faults(reset: bool, defer: bool)

  datatype Receipt = Receipt(thread: ThreadId, message: MessageId, created: bool, run: RunId)

  datatype Outcome = Dropped | Raised | Accepted(receipt: Receipt)

  /** Mails that scheduled tasks send to themselves are no sign of the user. */
  predicate FromSchedule(e: Email)
  {
    "sched-" <= e.pid
  }

  function Reset(tasks: map<string, ScheduledTasks.Task>, a: AssistantId): map<string, ScheduledTasks.Task>
  {
    map id | id in tasks :: if tasks[id].assistant == a then tasks[id].(unanswered := 0) else tasks[id]
  }

  /** What the persisting transaction does to the tables and returns; None is a rollback. */
  ghost predicate Persists(db: Tables, db': Tables, a: AssistantId, e: Email, t: ThreadId, ids: NewIds,
                           p: Option<Receipt>)
  {
    match p
    case None =>
      && db' == db
      && (IsExisting(db, a, e.pid, None) ==> Key(a, e.header) in db.index)
      && forall m, run :: IsExisting(db, a, e.pid, Some(m)) ==> !IsRunOf(db, m, run)
    case Some(Receipt(thread, message, created, run)) =>
      && thread == t && (created <==> IsExisting(db, a, e.pid, None))
      && IsExisting(db', a, e.pid, Some(message))
      && if created
         then
           && message == ids.message && run == ids.run && Key(a, e.header) !in db.index
           && db' == EnsureRun(AddMessage(db, message, InboundMessage(a, t, e)), a, t, message, run)
         else if run in db.runs then IsRunOf(db, message, Some(run)) && db' == db
         else
           && IsRunOf(db, message, None) && run == ids.run
           && message in db.messages && db.messages[message].direction.Outbound?
           && db' == EnsureRun(db, a, t, message, run)
  }

  class Runtime {
    var threads: map<ThreadId, Thread>
    var messages: map<MessageId, Message>
    var index: map<Key, ThreadId>
    var runs: map<RunId, Run>
    var deferred: seq<RunId>
    var tasks: map<string, ScheduledTasks.Task>
    ghost var deliveries: map<nat, Delivery>
    ghost var lost: set<RunId>
    ghost var trace: seq<Step>

    function Db(): Tables
      reads this
    {
      Tables(threads, messages, index, runs)
    }

    ghost function Value(): State
      reads this
    {
      State(Db(), deliveries, multiset(deferred), lost)
    }

    /** The state is one the protocol reaches. */
    ghost predicate Valid()
      reads this
    {
      Runs(EMPTY, trace, Value())
    }

    constructor (tasks: map<string, ScheduledTasks.Task>)
      ensures Valid() && deferred == [] && Db() == EMPTY.db && deliveries == map[] && this.tasks == tasks
    {
      threads, messages, index, runs, deferred := map[], map[], map[], map[], [];
      this.tasks, deliveries, lost, trace := tasks, map[], {}, [];
    }

    lemma Reached()
      requires Valid()
      ensures Inv(Value())
    {
      EmptyInv();
      RunsKeepInv(EMPTY, trace, Value());
    }

    /** Records a step: tables and queue already have their new contents. */
    ghost method Did(before: State, step: Step)
      requires Runs(EMPTY, trace, before) && Enabled(before, step)
      requires Db() == Apply(before, step).db && multiset(deferred) == Apply(before, step).enqueued
      modifies this`deliveries, this`lost, this`trace
      ensures Value() == Apply(before, step) && Valid()
    {
      RunsSnoc(EMPTY, trace, before, step);
      trace := trace + [step];
      deliveries, lost := Apply(before, step).deliveries, Apply(before, step).lost;
    }

    ghost predicate PhaseIs(d: nat, a: AssistantId, e: Email, phase: Phase)
      reads this
    {
      && d in deliveries && deliveries[d].assistant == a && deliveries[d].email == e
      && deliveries[d].phase == phase
    }

    // -------------------------------------------------------------- the steps of a call

    /** The resolver's own transaction. */
    method ResolveThread(ghost d: nat, a: AssistantId, e: Email, newThread: ThreadId) returns (t: ThreadId)
      requires Valid() && PhaseIs(d, a, e, Received) && newThread !in threads
      modifies this`threads, this`deliveries, this`lost, this`trace
      ensures Valid() && PhaseIs(d, a, e, Resolved(t)) && Db() == old(NewThread(Db(), a, e, newThread))
      ensures lost == old(lost)
      ensures t == old(ThreadFor(Db(), a, e, newThread)) && t in threads && threads[t].assistant == a
    {
      hide Runs;
      ghost var s0 := Value();
      Reached();
      ResolveKeepsAssistant(Db(), a, e);
      var found := Threading.ResolveThread(Db(), a, e);
      if found.Some? {
        t := found.value;
      } else {
        threads := threads[newThread := Thread(a)];
        t := newThread;
      }
      Did(s0, ResolveStep(d, newThread));
    }

    method FindExisting(a: AssistantId, pid: ProviderId) returns (seen: Option<MessageId>)
      ensures IsExisting(Db(), a, pid, seen)
    {
      if m :| m in messages && messages[m].assistant == a && messages[m].pid == pid {
        return Some(m);
      }
      return None;
    }

    /** The query for a message's run; it raises when there are two. */
    method QueryRun(m: MessageId) returns (raised: bool, run: Option<RunId>)
      ensures !raised ==> IsRunOf(Db(), m, run)
      ensures raised ==> forall r :: !IsRunOf(Db(), m, r)
    {
      if r :| r in runs && runs[r].inbound == m {
        if q :| q in runs && q != r && runs[q].inbound == m {
          return true, None;
        }
        return false, Some(r);
      }
      return false, None;
    }

    method CommitNew(ghost d: nat, a: AssistantId, e: Email, t: ThreadId, ids: NewIds)
      requires Valid() && PhaseIs(d, a, e, Reading(t, None, None)) && IsExisting(Db(), a, e.pid, None)
      requires Key(a, e.header) !in index && ids.message !in messages && ids.run !in runs
      modifies this`messages, this`index, this`runs, this`deliveries, this`lost, this`trace
      ensures Valid() && lost == old(lost) && PhaseIs(d, a, e, Committed(ids.message, ids.run, t, true))
      ensures Db() == old(EnsureRun(AddMessage(Db(), ids.message, InboundMessage(a, t, e)), a, t, ids.message, ids.run))
    {
      hide Runs;
      ghost var s0 := Value();
      messages := messages[ids.message := InboundMessage(a, t, e)];
      index := index[Key(a, e.header) := t];
      runs := runs[ids.run := Run(a, t, ids.message)];
      Did(s0, Commit(d, ids.message, ids.run));
    }

    /** The run that was read, or a new one. */
    method CommitFound(ghost d: nat, a: AssistantId, e: Email, t: ThreadId, m: MessageId, queued: Option<RunId>,
                       newRun: RunId)
      returns (r: RunId)
      requires Valid() && PhaseIs(d, a, e, Reading(t, Some(m), queued)) && newRun !in runs
      modifies this`runs, this`deliveries, this`lost, this`trace
      ensures Valid() && lost == old(lost) && PhaseIs(d, a, e, Committed(m, r, t, false))
      ensures r == if queued.Some? then queued.value else newRun
      ensures IsExisting(Db(), a, e.pid, Some(m)) && (queued.None? ==> messages[m].direction.Outbound?)
      ensures Db() == if queued.Some? then old(Db()) else old(EnsureRun(Db(), a, t, m, r))
    {
      hide Runs;
      ghost var s0 := Value();
      Reached();
      assert DeliveryOk(s0, d);
      if queued.Some? {
        r := queued.value;
      } else {
        r := newRun;
        runs := runs[newRun := Run(a, t, m)];
      }
      Did(s0, Commit(d, m, r));
    }

    /** `persist_inbound`, `_ensure_queued_run` and the commit. A clash on the message header, or a
        second run for the message found, rolls everything back. */
    method Persist(ghost d: nat, a: AssistantId, e: Email, t: ThreadId, ids: NewIds) returns (p: Option<Receipt>)
      requires Valid() && PhaseIs(d, a, e, Resolved(t))
      requires ids.message !in messages && ids.run !in runs
      modifies this`messages, this`index, this`runs, this`deliveries, this`lost, this`trace
      ensures Valid() && Persists(old(Db()), Db(), a, e, t, ids, p)
      ensures lost == old(lost) && At(Value(), d)
      ensures p.None? ==> !deliveries[d].phase.Committed?
      ensures p.Some? ==> PhaseIs(d, a, e, Committed(p.value.message, p.value.run, p.value.thread, p.value.created))
      ensures p.Some? && p.value.created ==> StoredAs(a, e.pid, e.header, e.references, e.body, p.value)
    {
      hide Runs, StoredAs;
      ghost var s0 := Value();
      var seen := FindExisting(a, e.pid);
      if seen.Some? {
        OneByProvider(a, e.pid, seen.value);
        var raised, queued := QueryRun(seen.value);
        if raised { return None; }
        Did(s0, Find(d, seen, queued));
        var run := CommitFound(d, a, e, t, seen.value, queued, ids.run);
        return Some(Receipt(t, seen.value, false, run));
      }
      Did(s0, Find(d, None, None));
      if Key(a, e.header) in index { return None; }
      CommitNew(d, a, e, t, ids);
      CommittedIsStored(d, a, e, Receipt(t, ids.message, true, ids.run));
      return Some(Receipt(t, ids.message, true, ids.run));
    }

    lemma OneByProvider(a: AssistantId, pid: ProviderId, m: MessageId)
      requires Valid() && IsExisting(Db(), a, pid, Some(m))
      ensures forall n :: IsExisting(Db(), a, pid, Some(n)) ==> n == m
    {
      Reached();
      forall n | IsExisting(Db(), a, pid, Some(n)) ensures n == m { assert OnceByProvider(Db(), n, m); }
    }

    method ResetCounters(a: AssistantId)
      modifies this`tasks
      ensures tasks == Reset(old(tasks), a)
      ensures tasks.Keys == old(tasks).Keys
      ensures forall id :: id in tasks && tasks[id].assistant == a ==>
                tasks[id].unanswered == 0 && tasks[id] == old(tasks)[id].(unanswered := 0)
      ensures forall id :: id in tasks && old(tasks)[id].assistant != a ==> tasks[id] == old(tasks)[id]
    {
      var todo := tasks.Keys;
      while todo != {}
        invariant todo <= tasks.Keys == old(tasks).Keys
        invariant forall id :: id in todo ==> tasks[id] == old(tasks)[id]
        invariant forall id :: id in tasks && id !in todo ==> tasks[id] == Reset(old(tasks), a)[id]
        decreases todo
      {
        var id :| id in todo;
        todo := todo - {id};
        if tasks[id].assistant == a && tasks[id].unanswered != 0 {
          tasks := tasks[id := tasks[id].(unanswered := 0)];
        }
      }
    }

    /** Enqueues a created run; a defer that raises leaves it behind, never to be enqueued. */
    method Finish(ghost d: nat, a: AssistantId, e: Email, p: Receipt, fault: bool) returns (raised: bool)
      requires Valid() && PhaseIs(d, a, e, Committed(p.message, p.run, p.thread, p.created))
      modifies this`deferred, this`deliveries, this`lost, this`trace
      ensures Valid() && (raised <==> p.created && fault)
      ensures !raised ==> PhaseIs(d, a, e, Finished(p.message, p.run, p.thread, p.created))
      ensures deferred == if p.created && !fault then old(deferred) + [p.run] else old(deferred)
      ensures lost == if raised then old(lost) + {p.run} else old(lost)
    {
      hide Runs;
      ghost var s0 := Value();
      if p.created {
        if fault {
          Did(s0, Die(d));
          return true;
        }
        deferred := deferred + [p.run];
      }
      Did(s0, Defer(d));
      return false;
    }

    ghost method Begin(d: nat, a: AssistantId, e: Email, surface: bool)
      requires Valid() && d !in deliveries
      modifies this`deliveries, this`lost, this`trace
      ensures Valid() && PhaseIs(d, a, e, Received) && deliveries[d].surface == surface && lost == old(lost)
    {
      hide Runs;
      Did(Value(), Receive(d, a, e, surface));
    }

    /** The call raises. */
    ghost method Abandon(d: nat)
      requires Valid() && At(Value(), d)
      modifies this`deliveries, this`lost, this`trace
      ensures Valid()
      ensures var q := old(deliveries)[d].phase;
              lost == if q.Committed? && q.created then old(lost) + {q.run} else old(lost)
    {
      hide Runs;
      Did(Value(), Die(d));
    }

    /** Resolving, then persisting: the two transactions of a call. */
    method Store(ghost d: nat, a: AssistantId, e: Email, ids: NewIds) returns (p: Option<Receipt>)
      requires Valid() && PhaseIs(d, a, e, Received)
      requires ids.thread !in threads && ids.message !in messages && ids.run !in runs
      modifies this`threads, this`messages, this`index, this`runs, this`deliveries, this`lost, this`trace
      ensures Valid() && lost == old(lost)
      ensures Persists(old(NewThread(Db(), a, e, ids.thread)), Db(), a, e,
                       old(ThreadFor(Db(), a, e, ids.thread)), ids, p)
      ensures p.Some? ==> PhaseIs(d, a, e, Committed(p.value.message, p.value.run, p.value.thread, p.value.created))
      ensures p.Some? && p.value.created ==> StoredAs(a, e.pid, e.header, e.references, e.body, p.value)
    {
      hide Runs, Apply, Enabled, Inv, Persists, ThreadFor, StoredAs;
      var t := ResolveThread(d, a, e, ids.thread);
      p := Persist(d, a, e, t, ids);
      if p.None? { Abandon(d); }
    }

    /** What follows the commit: the counters, if they are to be reset, then the queue. */
    method Announce(ghost d: nat, a: AssistantId, e: Email, p: Receipt, resets: bool, f: Faults) returns (raised: bool)
      requires Valid() && PhaseIs(d, a, e, Committed(p.message, p.run, p.thread, p.created))
      modifies this`tasks, this`deferred, this`deliveries, this`lost, this`trace
      ensures Valid() && (raised <==> p.created && (f.defer || (resets && f.reset)))
      ensures !raised ==> PhaseIs(d, a, e, Finished(p.message, p.run, p.thread, p.created))
      ensures tasks == if p.created && resets && !f.reset then Reset(old(tasks), a) else old(tasks)
      ensures deferred == if p.created && !raised then old(deferred) + [p.run] else old(deferred)
      ensures lost == if raised then old(lost) + {p.run} else old(lost)
    {
      hide Runs, Apply, Enabled, Inv;
      if p.created && resets {
        if f.reset {
          Abandon(d);
          return true;
        }
        ResetCounters(a);
      }
      raised := Finish(d, a, e, p, f.defer);
    }

    /** What a call did after its two transactions, `p` being what the second one returned. */
    twostate predicate Announced(a: AssistantId, new p: Option<Receipt>, resets: bool, f: Faults, new r: Outcome)
      reads this
    {
      var first := p.Some? && p.value.created;
      && !r.Dropped? && (r.Accepted? ==> p == Some(r.receipt))
      && (r.Raised? <==> p.None? || (first && (f.defer || (resets && f.reset))))
      && tasks == (if first && resets && !f.reset then Reset(old(tasks), a) else old(tasks))
      && deferred == (if first && r.Accepted? then old(deferred) + [p.value.run] else old(deferred))
      && lost == (if first && r.Raised? then old(lost) + {p.value.run} else old(lost))
    }

    /** The protocol's delivery ended with just this answer. */
    ghost predicate AnsweredAs(d: nat, a: AssistantId, e: Email, p: Receipt)
      reads this
    {
      PhaseIs(d, a, e, Finished(p.message, p.run, p.thread, p.created))
    }

    lemma CommittedIsStored(d: nat, a: AssistantId, e: Email, p: Receipt)
      requires Valid() && PhaseIs(d, a, e, Committed(p.message, p.run, p.thread, p.created)) && p.created
      ensures StoredAs(a, e.pid, e.header, e.references, e.body, p)
    {
      Reached();
      assert DeliveryOk(Value(), d);
      assert Indexed(Db(), p.message) && RunOk(Db(), p.run) && MessageOk(Db(), p.message);
    }

    /** A call that was accepted as the first of its mail: what is stored now. */
    ghost predicate StoredAs(a: AssistantId, pid: ProviderId, header: Header, references: seq<Header>, body: string,
                             p: Receipt)
      reads this`threads, this`messages, this`index, this`runs
    {
      && p.message in messages && messages[p.message].direction == Inbound && messages[p.message].assistant == a
      && messages[p.message].pid == pid && messages[p.message].header == header
      && messages[p.message].references == references && messages[p.message].body == body
      && messages[p.message].thread == p.thread && p.thread in threads && threads[p.thread].assistant == a
      && Key(a, header) in index && index[Key(a, header)] == p.thread
      && p.run in runs && runs[p.run].inbound == p.message
      && runs[p.run].thread == p.thread && runs[p.run].assistant == a
    }

    method Take(ghost d: nat, a: AssistantId, e: Email, ghost surface: bool, resets: bool, ids: NewIds, f: Faults)
      returns (r: Outcome, ghost p: Option<Receipt>)
      requires Valid() && d !in deliveries
      requires ids.thread !in threads && ids.message !in messages && ids.run !in runs
      modifies this
      ensures Valid() && Announced(a, p, resets, f, r) && (r.Accepted? ==> AnsweredAs(d, a, e, r.receipt))
      ensures Persists(old(NewThread(Db(), a, e, ids.thread)), Db(), a, e,
                       old(ThreadFor(Db(), a, e, ids.thread)), ids, p)
      ensures p.Some? && p.value.created ==> StoredAs(a, e.pid, e.header, e.references, e.body, p.value)
    {
      hide Runs, Apply, Enabled, Inv, Persists, NewThread, ThreadFor, Reset, IsExisting, Resolve, StoredAs;
      Begin(d, a, e, surface);
      var stored := Store(d, a, e, ids);
      p := stored;
      if stored.None? { return Raised, p; }
      var raised := Announce(d, a, e, stored.value, resets, f);
      r := if raised then Raised else Accepted(stored.value);
    }

    // -------------------------------------------------------------- whole calls

    /** `accept_inbound`. A first delivery stores one message, without any quoted footer, one index
        entry and one run, all in the resolved thread, resets the counters and enqueues that run
        once. A repeated one stores at most an empty thread (and a run for a reply whose id it
        carries), and resets and enqueues nothing. */
    method AcceptInbound(ghost d: nat, scope: Option<AssistantId>, mail: Email, ids: NewIds, f: Faults)
      returns (r: Outcome, ghost p: Option<Receipt>)
      requires Valid() && d !in deliveries
      requires ids.thread !in threads && ids.message !in messages && ids.run !in runs
      modifies this
      ensures Valid() && (r.Dropped? <==> scope.None?)
      ensures scope.None? ==> Db() == old(Db()) && deferred == old(deferred) && tasks == old(tasks)
      ensures scope.Some? ==>
                var a, e := scope.value, mail.(body := RunFooter.Strip(mail.body));
                && Announced(a, p, !("sched-" <= mail.pid), f, r)
                && (r.Accepted? ==> AnsweredAs(d, a, e, r.receipt))
                && (r.Accepted? && r.receipt.created ==>
                      StoredAs(a, mail.pid, mail.header, mail.references, RunFooter.Strip(mail.body), r.receipt))
                && Persists(old(NewThread(Db(), a, e, ids.thread)), Db(), a, e,
                            old(ThreadFor(Db(), a, e, ids.thread)), ids, p)
    {
      hide Runs, Persists, NewThread, ThreadFor, Reset, IsExisting, Resolve, StoredAs;
      p := None;
      if scope.None? { return Dropped, None; }
      var body := RunFooter.StripFooter(mail.body);
      var e := mail.(body := body);
      r, p := Take(d, scope.value, e, false, !FromSchedule(e), ids, f);
    }

    /** `_find_run_for_provider_message_id`, with the message found after it. */
    method FindRun(a: AssistantId, pid: ProviderId) returns (raised: bool, hit: Option<(MessageId, RunId)>)
      requires Valid()
      ensures hit.Some? ==> IsExisting(Db(), a, pid, Some(hit.value.0)) && IsRunOf(Db(), hit.value.0, Some(hit.value.1))
      ensures raised <==> !Unanswered(a, pid) && !Answerable(a, pid)
      ensures hit.Some? <==> Answerable(a, pid)
    {
      var seen := FindExisting(a, pid);
      if seen.None? { return false, None; }
      OneByProvider(a, pid, seen.value);
      var r, run := QueryRun(seen.value);
      if r { return true, None; }
      if run.None? { return false, None; }
      assert IsRunOf(Db(), seen.value, run);
      return false, Some((seen.value, run.value));
    }

    /** No message with this id has a run. */
    ghost predicate Unanswered(a: AssistantId, pid: ProviderId)
      reads this
    {
      forall m :: IsExisting(Db(), a, pid, Some(m)) ==> IsRunOf(Db(), m, None)
    }

    /** A message with this id has exactly one. */
    ghost predicate Answerable(a: AssistantId, pid: ProviderId)
      reads this
    {
      exists m, r :: IsExisting(Db(), a, pid, Some(m)) && IsRunOf(Db(), m, Some(r))
    }

    /** `accept_surface_action`: neither stripping nor a reset, and a call whose id has a run
        already is answered with that run and its message's own thread; one with two raises. */
    method AcceptSurfaceAction(ghost d: nat, scope: Option<AssistantId>, pid: ProviderId, header: Header, body: string,
                               ids: NewIds, deferFault: bool)
      returns (r: Outcome, ghost p: Option<Receipt>)
      requires Valid() && d !in deliveries
      requires ids.thread !in threads && ids.message !in messages && ids.run !in runs
      modifies this
      ensures Valid() && tasks == old(tasks) && (r.Dropped? <==> scope.None?)
      ensures scope.None? ==> Db() == old(Db()) && deferred == old(deferred)
      ensures r.Accepted? ==> AnsweredAs(d, scope.value, Email(pid, header, None, [], body), r.receipt)
      ensures scope.Some? && !old(Unanswered(scope.value, pid)) ==>
                && Db() == old(Db()) && deferred == old(deferred) && lost == old(lost)
                && (r.Accepted? <==> old(Answerable(scope.value, pid))) && (r.Raised? <==> !r.Accepted?)
                && (r.Accepted? ==>
                      && !r.receipt.created && IsExisting(Db(), scope.value, pid, Some(r.receipt.message))
                      && IsRunOf(Db(), r.receipt.message, Some(r.receipt.run))
                      && r.receipt.thread == messages[r.receipt.message].thread)
      ensures scope.Some? && old(Unanswered(scope.value, pid)) ==>
                var a, e := scope.value, Email(pid, header, None, [], body);
                && Announced(a, p, false, Faults(false, deferFault), r)
                && (r.Accepted? && r.receipt.created ==> StoredAs(a, pid, header, [], body, r.receipt))
                && Persists(old(NewThread(Db(), a, e, ids.thread)), Db(), a, e, ids.thread, ids, p)
    {
      hide Runs, Persists, NewThread, Reset, IsExisting, StoredAs;
      p := None;
      if scope.None? { return Dropped, None; }
      var a, e := scope.value, Email(pid, header, None, [], body);
      var raised, hit := FindRun(a, pid);
      if raised {
        Begin(d, a, e, true);
        Abandon(d);
        return Raised, p;
      }
      if hit.Some? {
        Begin(d, a, e, true);
        Hit(d, a, e, hit.value.0, hit.value.1);
        return Accepted(Receipt(messages[hit.value.0].thread, hit.value.0, false, hit.value.1)), p;
      }
      r, p := Take(d, a, e, true, false, ids, Faults(false, deferFault));
    }

    ghost method Hit(d: nat, a: AssistantId, e: Email, m: MessageId, r: RunId)
      requires Valid() && PhaseIs(d, a, e, Received) && deliveries[d].surface
      requires IsExisting(Db(), a, e.pid, Some(m)) && IsRunOf(Db(), m, Some(r))
      modifies this`deliveries, this`lost, this`trace
      ensures Valid() && lost == old(lost) && PhaseIs(d, a, e, Finished(m, r, messages[m].thread, false))
    {
      hide Runs;
      Did(Value(), SurfaceHit(d, m, r));
    }
  }
}
