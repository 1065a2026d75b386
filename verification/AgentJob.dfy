// One run_agent job on one queued run, with an exception possible at every awaited call:
// what is left in the run row and the ledger, and which mails were attempted.
module AgentJob {
  import opened Options
  import opened Pricing
  import opened Metering
  import opened RunStatus

  /** How `agent.run` ends. Usage is what the agent reports for the tokens it saw. */
  datatype AgentEnd =
    | Returned(quiet: bool, tokens: Tokens, items: seq<Metered>)
    | RaisedWithUsage(partial: Tokens, partialItems: seq<Metered>)
    | TimedOut
    | Broke

  /** Which awaited calls raise. A call that is not reached raises nothing. */
  datatype Faults = Faults(
    load: bool,            // _load_run
    markRunning: bool,     // mark_running
    workspace: bool,       // get_workspace, write_platform_environment
    decide: bool,          // budget decision
    limitSend: bool,       // sending the budget reply
    prepare: bool,         // projection, skills, memory recall, prompt, prior history
    attachments: bool,     // reading attachments, building the envelope
    send: bool,            // sending the reply
    complete: bool,        // record_completion, before its commit
    curate: bool,          // the curate defer, after that commit
    relabel: bool,         // marking the run budget_limited
    quiet: bool,           // record_quiet_exit
    quietFire: bool,       // the quiet-exit audit row
    visible: bool,         // counting the scheduled notification
    failInner: bool,       // record_failure inside execute_run
    lookupInner: bool,     // owner lookup inside execute_run
    reload: bool,          // the wrapper's reload of the run
    failOuter: bool,       // record_failure in the wrapper
    lookupOuter: bool,     // owner lookup in the wrapper
    userSend: bool,        // sending the failure notice to the end user
    ownerSend: bool)       // sending it to the owner

  datatype Input = Input(model: string, allowed: bool, agent: AgentEnd, ownerHasEmail: bool, f: Faults)

  function ReportedUsage(i: Input): Option<Usage>
  {
    match i.agent
    case Returned(_, t, items) => Some(RunUsage(i.model, t, items))
    case RaisedWithUsage(t, items) => Some(PartialUsage(i.model, t, items))
    case _ => None
  }

  function ReportedItems(i: Input): seq<Metered>
  {
    match i.agent
    case Returned(_, _, items) => items
    case RaisedWithUsage(_, items) => items
    case _ => []
  }

  const ZERO_USAGE := Usage(0, 0, 0)

  /** An exception reaches the wrapper while the run row is still queued or running. */
  predicate Escapes(i: Input)
  {
    || i.f.load || i.f.markRunning || i.f.workspace || i.f.decide
    || (!i.allowed && (i.f.limitSend || i.f.complete))
    || (i.allowed && i.f.prepare)
    || (i.allowed && !i.agent.Returned? && i.f.failInner)
    || (i.allowed && i.agent.Returned? && i.agent.quiet && i.f.quiet)
    || (i.allowed && i.agent.Returned? && !i.agent.quiet && i.f.failInner
        && (i.f.attachments || i.f.send || i.f.complete))
  }

  /** The reply was sent and recorded, then a later call raised and the failure was recorded too. */
  predicate CompletedThenFailed(i: Input)
  {
    && !Escapes(i) && i.allowed && i.agent.Returned? && !i.agent.quiet
    && !i.f.attachments && !i.f.send && !i.f.complete && (i.f.curate || i.f.visible) && !i.f.failInner
  }

  /** A reply, or the budget reply, was sent and put on record. */
  predicate Replied(i: Input)
  {
    && !i.f.load && !i.f.markRunning && !i.f.workspace && !i.f.decide && !i.f.complete
    && if !i.allowed then !i.f.limitSend
       else !i.f.prepare && i.agent.Returned? && !i.agent.quiet && !i.f.attachments && !i.f.send
  }

  /** The status a job leaves behind, unless it leaves the run open. A run that got the budget
      reply keeps the label "completed" when the curate defer or the relabelling raises. */
  function FinalStatus(i: Input): Status
  {
    if Escapes(i) then Failed
    else if !i.allowed then if i.f.curate || i.f.relabel then Completed else BudgetLimited
    else if !i.agent.Returned? then Failed
    else if i.agent.quiet then QuietExited
    else if Replied(i) && (i.f.failInner || !(i.f.curate || i.f.visible)) then Completed
    else Failed
  }

  /** What `execute_run` lets its caller see. */
  predicate Raises(i: Input)
  {
    || Escapes(i) || FinalStatus(i).Failed?
    || (FinalStatus(i).Completed? && (i.f.curate || (if i.allowed then i.f.visible else i.f.relabel)))
    || (FinalStatus(i).QuietExited? && i.f.quietFire)
  }

  // ---------------------------------------------------------------- what was booked

  /** The ledger rows of a run, read off its row and the agent's end. */
  function Booked(i: Input, status: Status, replyStored: bool): seq<LedgerRow>
  {
    match status
    case QuietExited => CompletionRows(ReportedOrZero(i), ReportedItems(i), i.model)
    case BudgetLimited => CompletionRows(ZERO_USAGE, [], i.model)
    case Completed =>
      if i.allowed then CompletionRows(ReportedOrZero(i), ReportedItems(i), i.model)
      else CompletionRows(ZERO_USAGE, [], i.model)
    case Failed =>
      (if replyStored then CompletionRows(ReportedOrZero(i), ReportedItems(i), i.model) else [])
      + FailureRows(ReportedUsage(i), ReportedItems(i), i.model)
    case _ => []
  }

  function ReportedOrZero(i: Input): Usage
  {
    if ReportedUsage(i).Some? then ReportedUsage(i).value else ZERO_USAGE
  }

  function ReportedCost(i: Input): int
  {
    ReportedOrZero(i).cost
  }

  /** What the run has cost: its tokens at the model's price, if the agent saw any, and every
      metered request. */
  function CostIncurred(i: Input): int
  {
    match i.agent
    case Returned(_, t, items) => Estimate(i.model, t) + MeteredTotal(items)
    case RaisedWithUsage(t, items) =>
      (if t.input > 0 || t.output > 0 then Estimate(i.model, t) else 0) + MeteredTotal(items)
    case TimedOut => 0
    case Broke => 0
  }

  lemma ReportedIsIncurred(i: Input)
    ensures ReportedCost(i) == CostIncurred(i)
  {
    match i.agent {
      case Returned(_, t, items) => PartialIsReturned(i.model, t, items);
      case RaisedWithUsage(t, items) => PartialIsReturned(i.model, t, items);
      case _ =>
    }
  }

  /** The rows of an allowed run: those of its completion, if it was put on record, and those of
      its failure, if it failed. */
  function RowsOf(i: Input, ended: bool, failed: bool): seq<LedgerRow>
  {
    match i.agent
    case Returned(_, t, items) =>
      (if ended then CompletionRows(RunUsage(i.model, t, items), items, i.model) else [])
      + (if failed then FailureRows(Some(RunUsage(i.model, t, items)), items, i.model) else [])
    case RaisedWithUsage(t, items) => FailureRows(Some(PartialUsage(i.model, t, items)), items, i.model)
    case _ => []
  }

  /** Providers report cached tokens as a subset of the prompt tokens. */
  predicate CacheWithin(i: Input)
  {
    i.agent.Returned? ==> i.agent.tokens.cached <= i.agent.tokens.input
  }

  /** How often a job books the reported cost: never if the agent did not get to run or its
      failure escaped, twice exactly if the run was completed and then failed, else once. */
  function Copies(i: Input): nat
  {
    if Escapes(i) || !i.allowed then 0 else if CompletedThenFailed(i) then 2 else 1
  }

  lemma BookedTotal(i: Input, status: Status, replyStored: bool)
    requires CacheWithin(i) && Terminal(status) && (status in {QuietExited, Failed} ==> i.allowed)
    requires status == QuietExited || (replyStored && i.allowed) ==> i.agent.Returned?
    requires status in {Completed, BudgetLimited} ==> replyStored
    ensures RowsTotal(Booked(i, status, replyStored)) ==
            (if !i.allowed || status == BudgetLimited then 0 else if status == Failed && replyStored then 2 else 1)
            * ReportedCost(i)
  {
    CompletionConserves(ZERO_USAGE, [], i.model);
    match i.agent {
      case Returned(_, t, items) =>
        LedgerConservesReportedCost(i.model, i.model, t, items);
        ReturnedThenFailedConserves(i.model, i.model, t, items);
      case RaisedWithUsage(t, items) =>
        LedgerConservesReportedCost(i.model, i.model, t, items);
      case _ =>
        assert FailureRows(None, [], i.model) == [];
    }
    RowsTotalAppend(if replyStored then CompletionRows(ReportedOrZero(i), ReportedItems(i), i.model) else [],
                    FailureRows(ReportedUsage(i), ReportedItems(i), i.model));
  }

  const ALL_WELL := Faults(false, false, false, false, false, false, false, false, false, false, false, false, false,
                           false, false, false, false, false, false, false, false)

  /** When nothing raises, the budget and the agent alone decide: the budget reply, a reply, a
      silent end, or a failure that the job raises again. */
  lemma WithoutFaults(i: Input)
    requires i.f == ALL_WELL
    ensures !i.allowed ==> FinalStatus(i) == BudgetLimited && Replied(i) && !Raises(i) && Copies(i) == 0
    ensures i.allowed && i.agent.Returned? && i.agent.quiet ==>
              FinalStatus(i) == QuietExited && !Replied(i) && !Raises(i) && Copies(i) == 1
    ensures i.allowed && i.agent.Returned? && !i.agent.quiet ==>
              FinalStatus(i) == Completed && Replied(i) && !Raises(i) && Copies(i) == 1
    ensures i.allowed && !i.agent.Returned? ==>
              FinalStatus(i) == Failed && !Replied(i) && Raises(i) && Copies(i) == 1
  {
  }

  /** A single fault after the agent's answer: before the completion is on record the run fails
      without it, after that it fails with it. */
  lemma WithOneFault(i: Input)
    requires i.allowed && i.agent.Returned? && !i.agent.quiet
    ensures i.f in {ALL_WELL.(attachments := true), ALL_WELL.(send := true), ALL_WELL.(complete := true)} ==>
              FinalStatus(i) == Failed && !Replied(i) && Raises(i) && Copies(i) == 1
    ensures i.f in {ALL_WELL.(curate := true), ALL_WELL.(visible := true)} ==>
              FinalStatus(i) == Failed && Replied(i) && Raises(i) && Copies(i) == 2
  {
  }

  lemma BookedIsRowsOf(i: Input, status: Status, replyStored: bool)
    requires i.allowed && Terminal(status) && status != BudgetLimited
    requires replyStored || status == QuietExited ==> i.agent.Returned?
    requires status == Completed ==> replyStored
    requires status == QuietExited ==> !replyStored
    ensures Booked(i, status, replyStored) == RowsOf(i, replyStored || status.QuietExited?, status.Failed?)
  {
    hide CompletionRows, FailureRows, RunUsage, PartialUsage;
    if i.agent.TimedOut? || i.agent.Broke? { NoRows(i.model); }
  }

  lemma NoRows(model: string)
    ensures FailureRows(None, [], model) == []
  {
  }

  // ---------------------------------------------------------------- the run row

  class RunRow {
    var status: Status
    var replyStored: bool
    var ledger: seq<LedgerRow>
    var repliesAttempted: nat
    var userNotices: nat       // attempted
    var ownerNotices: nat
    var userNotified: nat      // sent
    var ownerNotified: nat

    constructor ()
      ensures status == Queued && IsUntouched()
    {
      status, replyStored, ledger, repliesAttempted := Queued, false, [], 0;
      userNotices, ownerNotices, userNotified, ownerNotified := 0, 0, 0, 0;
    }

    /** Nothing was recorded or sent yet. */
    predicate IsUntouched()
      reads this
    {
      && !replyStored && ledger == [] && repliesAttempted == 0
      && userNotices == 0 && ownerNotices == 0 && userNotified == 0 && ownerNotified == 0
    }

    // -------------------------------------------------------------- recorder

    /** One transaction, then the curate defer. */
    method RecordCompletion(u: Usage, items: seq<Metered>, model: string, f: Faults) returns (raised: bool)
      modifies this`status, this`replyStored, this`ledger
      ensures raised <==> f.complete || f.curate
      ensures f.complete ==> status == old(status) && replyStored == old(replyStored) && ledger == old(ledger)
      ensures !f.complete ==> status == Completed && replyStored
      ensures !f.complete ==> ledger == old(ledger) + CompletionRows(u, items, model)
    {
      if f.complete { return true; }
      status, replyStored := Completed, true;
      ledger := ledger + CompletionRows(u, items, model);
      return f.curate;
    }

    method RecordQuietExit(u: Usage, items: seq<Metered>, model: string, f: Faults) returns (raised: bool)
      modifies this`status, this`ledger
      ensures raised <==> f.quiet
      ensures f.quiet ==> status == old(status) && ledger == old(ledger)
      ensures !f.quiet ==> status == QuietExited && ledger == old(ledger) + CompletionRows(u, items, model)
    {
      if f.quiet { return true; }
      status := QuietExited;
      ledger := ledger + CompletionRows(u, items, model);
      return false;
    }

    method RecordFailure(u: Option<Usage>, items: seq<Metered>, model: string, fault: bool) returns (raised: bool)
      modifies this`status, this`ledger
      ensures raised <==> fault
      ensures fault ==> status == old(status) && ledger == old(ledger)
      ensures !fault ==> status == Failed && ledger == old(ledger) + FailureRows(u, items, model)
    {
      if fault { return true; }
      status := Failed;
      ledger := ledger + FailureRows(u, items, model);
      return false;
    }

    /** The owner lookup may raise. A send that raises is swallowed: the owner's notice is
        attempted whatever became of the end user's, and nothing escapes from either. */
    method NotifyRunFailed(ownerHasEmail: bool, lookup: bool, f: Faults) returns (raised: bool)
      modifies this`userNotices, this`ownerNotices, this`userNotified, this`ownerNotified
      ensures raised <==> lookup
      ensures userNotices == old(userNotices) + if lookup then 0 else 1
      ensures ownerNotices == old(ownerNotices) + if lookup || !ownerHasEmail then 0 else 1
      ensures userNotified == old(userNotified) + if lookup || f.userSend then 0 else 1
      ensures ownerNotified == old(ownerNotified) + if lookup || !ownerHasEmail || f.ownerSend then 0 else 1
    {
      if lookup { return true; }
      userNotices := userNotices + 1;
      if !f.userSend {
        userNotified := userNotified + 1;
      }
      if ownerHasEmail {
        ownerNotices := ownerNotices + 1;
        if !f.ownerSend {
          ownerNotified := ownerNotified + 1;
        }
      }
      return false;
    }

    /** The three except-branches around the agent and the one around the reply: record, notify,
        re-raise. A raise inside record_failure skips the notification. */
    method FailInside(i: Input)
      modifies this`status, this`ledger, this`userNotices, this`ownerNotices, this`userNotified, this`ownerNotified
      ensures status == if i.f.failInner then old(status) else Failed
      ensures ledger ==
              old(ledger) + if i.f.failInner then [] else FailureRows(ReportedUsage(i), ReportedItems(i), i.model)
      ensures var told := !i.f.failInner && !i.f.lookupInner;
              && userNotices == old(userNotices) + (if told then 1 else 0)
              && ownerNotices == old(ownerNotices) + (if told && i.ownerHasEmail then 1 else 0)
              && userNotified == old(userNotified) + (if told && !i.f.userSend then 1 else 0)
              && ownerNotified == old(ownerNotified) + (if told && i.ownerHasEmail && !i.f.ownerSend then 1 else 0)
    {
      var raised := RecordFailure(ReportedUsage(i), ReportedItems(i), i.model, i.f.failInner);
      if !raised {
        raised := NotifyRunFailed(i.ownerHasEmail, i.f.lookupInner, i.f);
      }
    }

    // -------------------------------------------------------------- execute_run

    method ReplyAndRecord(i: Input) returns (raised: bool)
      requires i.agent.Returned?
      modifies this`status, this`ledger, this`replyStored, this`repliesAttempted
      ensures repliesAttempted == old(repliesAttempted) + if i.f.attachments then 0 else 1
      ensures raised <==> i.f.attachments || i.f.send || i.f.complete || i.f.curate || i.f.visible
      ensures if i.f.attachments || i.f.send || i.f.complete
              then status == old(status) && replyStored == old(replyStored) && ledger == old(ledger)
              else status == Completed && replyStored
                   && ledger == old(ledger) + CompletionRows(ReportedOrZero(i), ReportedItems(i), i.model)
    {
      if i.f.attachments { return true; }
      repliesAttempted := repliesAttempted + 1;
      if i.f.send { return true; }
      raised := RecordCompletion(ReportedOrZero(i), ReportedItems(i), i.model, i.f);
      if raised { return true; }
      return i.f.visible;
    }

    /** The budget reply: sent, recorded as a completion, then relabelled in a second commit. */
    method AnswerLimited(i: Input) returns (raised: bool)
      modifies this`status, this`ledger, this`replyStored, this`repliesAttempted
      ensures repliesAttempted == old(repliesAttempted) + 1
      ensures raised <==> i.f.limitSend || i.f.complete || i.f.curate || i.f.relabel
      ensures if i.f.limitSend || i.f.complete
              then status == old(status) && replyStored == old(replyStored) && ledger == old(ledger)
              else status == (if raised then Completed else BudgetLimited) && replyStored
                   && ledger == old(ledger) + CompletionRows(ZERO_USAGE, [], i.model)
    {
      repliesAttempted := repliesAttempted + 1;
      if i.f.limitSend { return true; }
      raised := RecordCompletion(ZERO_USAGE, [], i.model, i.f);
      if raised || i.f.relabel { return true; }
      status := BudgetLimited;
      return false;
    }

    /** What `execute_run` leaves behind, for every placement of faults: the status, whether a
        reply is on record, the rows, the notices, and whether anything is raised. The status
        stays open exactly when an exception escapes unrecorded. */
    ghost predicate LeftBehind(i: Input, raised: bool)
      reads this
    {
      && (!Terminal(status) <==> Escapes(i)) && (!Escapes(i) ==> status == FinalStatus(i))
      && (raised <==> Raises(i)) && (replyStored <==> Replied(i))
      && (status == Failed && replyStored <==> CompletedThenFailed(i))
      && ledger == Booked(i, status, replyStored)
      && repliesAttempted <= 1 && (replyStored ==> repliesAttempted == 1)
      && userNotices == (if status == Failed && !i.f.lookupInner then 1 else 0)
      && ownerNotices == (if i.ownerHasEmail then userNotices else 0)
      && userNotified == (if i.f.userSend then 0 else userNotices)
      && ownerNotified == (if i.f.ownerSend then 0 else ownerNotices)
    }

    /** The run from the agent's end on, everything before it having gone well. */
    method FinishRun(i: Input) returns (raised: bool)
      requires i.allowed && status == Running && IsUntouched()
      requires !i.f.load && !i.f.markRunning && !i.f.workspace && !i.f.decide && !i.f.prepare
      modifies this
      ensures LeftBehind(i, raised)
    {
      hide CompletionRows, FailureRows, RunUsage, PartialUsage;
      ghost var rows := CompletionRows(ReportedOrZero(i), ReportedItems(i), i.model);
      assert [] + rows == rows;
      if !i.agent.Returned? {
        FailInside(i);
        return true;
      }
      if i.agent.quiet {
        raised := RecordQuietExit(ReportedOrZero(i), ReportedItems(i), i.model, i.f);
        if raised { return true; }
        return i.f.quietFire;
      }
      raised := ReplyAndRecord(i);
      if raised {
        FailInside(i);
      }
    }

    method ExecuteRun(i: Input) returns (raised: bool)
      requires status == Queued && IsUntouched()
      modifies this
      ensures LeftBehind(i, raised)
    {
      hide CompletionRows, FailureRows, RunUsage, PartialUsage;
      if i.f.load || i.f.markRunning { return true; }
      status := Running;
      if i.f.workspace || i.f.decide { return true; }
      if !i.allowed {
        raised := AnswerLimited(i);
        assert [] + CompletionRows(ZERO_USAGE, [], i.model) == CompletionRows(ZERO_USAGE, [], i.model);
        return;
      }
      if i.f.prepare { return true; }
      raised := FinishRun(i);
    }

    // -------------------------------------------------------------- the job wrapper

    /** `run_agent`: whatever raised, the run ends terminal unless both `execute_run` left it open
        and the wrapper could not reload it or record the failure. A failed run is notified
        exactly once (unless the owner lookup raised) and nothing else ever is; at most one reply
        is attempted; and the reported cost is booked `Copies` times. */
    method RunAgent(i: Input) returns (raised: bool)
      requires status == Queued && IsUntouched()
      modifies this
      ensures raised <==> Raises(i)
      ensures !Terminal(status) <==> Escapes(i) && (i.f.reload || i.f.failOuter)
      ensures Terminal(status) ==> status == FinalStatus(i)
      ensures replyStored <==> Replied(i)
      ensures userNotices ==
              if status == Failed && !(if Escapes(i) then i.f.lookupOuter else i.f.lookupInner) then 1 else 0
      ensures ownerNotices == if i.ownerHasEmail then userNotices else 0
      ensures userNotified == if i.f.userSend then 0 else userNotices
      ensures ownerNotified == if i.f.ownerSend then 0 else ownerNotices
      ensures repliesAttempted <= 1 && (replyStored ==> repliesAttempted == 1)
      ensures status == Failed && replyStored <==> CompletedThenFailed(i)
      ensures ledger == if Escapes(i) then [] else Booked(i, status, replyStored)
      ensures CacheWithin(i) ==> RowsTotal(ledger) == Copies(i) * ReportedCost(i)
      ensures CacheWithin(i) ==> RowsTotal(ledger) == Copies(i) * CostIncurred(i)
      ensures i.allowed && !Escapes(i) ==> ledger == RowsOf(i, replyStored || status.QuietExited?, status.Failed?)
      ensures i.allowed && !Escapes(i) && i.agent.RaisedWithUsage?
              && (i.agent.partial.input > 0 || i.agent.partial.output > 0) ==>
                RowsTotal(ledger) == Estimate(i.model, i.agent.partial) + MeteredTotal(i.agent.partialItems)
    {
      ReportedIsIncurred(i);
      raised := ExecuteRun(i);
      if i.allowed && !Escapes(i) { BookedIsRowsOf(i, status, replyStored); }
      if CacheWithin(i) && Terminal(status) {
        BookedTotal(i, status, replyStored);
      }
      if raised && !i.f.reload && !Terminal(status) {
        var again := RecordFailure(None, [], "", i.f.failOuter);
        assert FailureRows(None, [], "") == [];
        if !again {
          again := NotifyRunFailed(i.ownerHasEmail, i.f.lookupOuter, i.f);
        }
      }
    }
  }

  /** A run that is answered while the curate defer raises is charged twice. */
  method BookedTwice() returns (i: Input, row: RunRow)
    ensures i == Input("", true, Returned(false, Tokens(1000, 0, 0), []), true, ALL_WELL.(curate := true))
    ensures fresh(row) && row.status == Failed && row.replyStored && row.userNotices == 1
    ensures RowsTotal(row.ledger) == 2 * ReportedCost(i) > 0
  {
    i := Input("", true, Returned(false, Tokens(1000, 0, 0), []), true, ALL_WELL.(curate := true));
    row := new RunRow();
    var raised := row.RunAgent(i);
    assert CompletedThenFailed(i) && Copies(i) == 2;
    LedgerConservesReportedCost(i.model, i.model, Tokens(1000, 0, 0), []);
    assert Estimate("", Tokens(1000, 0, 0)) > 0;
  }
}
