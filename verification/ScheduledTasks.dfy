// Scheduled-task rows and what one tick does to the rows it has claimed.
module ScheduledTasks {
  import opened Options

  /** The cron library's next occurrence: strictly later, and the same from every moment until then. */
  type Cron = f: (string, int) -> int |
    forall expr, t :: f(expr, t) > t && forall u :: t <= u < f(expr, t) ==> f(expr, u) == f(expr, t)
    witness (expr, t) => t + 1

  /** The expression names this moment. */
  predicate Occurs(cron: Cron, expr: string, t: int)
  {
    cron(expr, t - 1) == t
  }

  /** The first occurrence after `now`. */
  ghost predicate NextAfter(cron: Cron, expr: string, now: int, next: int)
  {
    now < next && Occurs(cron, expr, next) && forall t :: now < t < next ==> !Occurs(cron, expr, t)
  }

  lemma CronIsNext(cron: Cron, expr: string, now: int)
    ensures NextAfter(cron, expr, now, cron(expr, now))
  {
    var next := cron(expr, now);
    assert cron(expr, next - 1) == next;
    forall t | now < t < next ensures !Occurs(cron, expr, t) { assert cron(expr, t - 1) == next; }
  }

  /** What firing a row at `now` leaves: a once-row is done, a repeated one waits for the first
      occurrence after `now`, and either remembers when it ran. */
  ghost predicate Fired(cron: Cron, t: Task, t': Task, now: int)
  {
    && t'.lastRunAt == Some(now)
    && match t.kind
       case Once => t'.status == Completed && t'.nextRunAt == t.nextRunAt
       case Repeat(expr) => NextAfter(cron, expr, now, t'.nextRunAt)
  }

  datatype Kind = Once | Repeat(cronExpr: string)
  datatype Status = Active | Completed | Paused

  datatype Task = Task(
    assistant: string,
    kind: Kind,
    hasCommand: bool,
    agentEnabled: bool,
    maxUnanswered: Option<int>,
    nextRunAt: int,
    lastRunAt: Option<int>,
    status: Status,
    unanswered: nat)

  datatype Dispatch = DispatchRaised | Dropped | Accepted

  /** Everything a tick learns from outside while handling one row. */
  datatype World = World(
    ownersPresent: bool,      // assistant and end user rows exist
    runnerPresent: bool,
    exitCode: int,
    blankOutput: bool,
    senderPresent: bool,
    sendOk: bool,
    dispatch: Dispatch)

  datatype Attempt = NotAttempted | AttemptFailed | QuietSkip | SentDirect | Continued

  /** What becomes of one claimed row. */
  function Attempted(t: Task, w: World): Attempt
  {
    if !w.ownersPresent then NotAttempted
    else if t.hasCommand && !w.runnerPresent then NotAttempted
    else if t.hasCommand && w.exitCode == 1 then QuietSkip
    else if t.hasCommand && (w.exitCode != 0 || w.blankOutput) then AttemptFailed
    else if t.hasCommand && !t.agentEnabled then
      if !w.senderPresent then NotAttempted else if w.sendOk then SentDirect else AttemptFailed
    else if w.dispatch.Accepted? then Continued else AttemptFailed
  }

  predicate Fires(a: Attempt)
  {
    a.QuietSkip? || a.SentDirect? || a.Continued?
  }

  function Advanced(cron: Cron, t: Task, now: int): Task
  {
    match t.kind
    case Once => t.(lastRunAt := Some(now), status := Completed)
    case Repeat(expr) => t.(lastRunAt := Some(now), nextRunAt := cron(expr, now))
  }

  predicate Capped(t: Task)
  {
    t.kind.Repeat? && t.maxUnanswered.Some? && t.maxUnanswered.value > 0
  }

  function Counted(t: Task, count: nat): Task
  {
    t.(unanswered := count, status := if Capped(t) && count >= t.maxUnanswered.value then Paused else t.status)
  }

  function After(cron: Cron, t: Task, w: World, now: int): Task
  {
    match Attempted(t, w)
    case NotAttempted => t
    case AttemptFailed => t
    case QuietSkip => Advanced(cron, t, now)
    case Continued => Advanced(cron, t, now)
    case SentDirect => Counted(Advanced(cron, t, now), t.unanswered + 1)
  }

  predicate Due(t: Task, now: int)
  {
    t.status.Active? && t.nextRunAt <= now
  }

  /** A due row is due again at the same time exactly when it did not fire; then it is unchanged. */
  lemma DueAgain(cron: Cron, t: Task, w: World, now: int)
    requires Due(t, now)
    ensures Due(After(cron, t, w, now), now) <==> !Fires(Attempted(t, w))
    ensures !Fires(Attempted(t, w)) <==> After(cron, t, w, now) == t
    ensures Fires(Attempted(t, w)) ==> Fired(cron, t, After(cron, t, w, now), now)
  {
    if t.kind.Repeat? { CronIsNext(cron, t.kind.cronExpr, now); }
  }

  datatype Fire = QuietExited | CommandFailed | SentDirectFire | ContinuedFire | PausedFire

  /** The audit rows written for one claimed row. */
  function Audit(t: Task, w: World): seq<Fire>
  {
    match Attempted(t, w)
    case NotAttempted => []
    case AttemptFailed => if t.hasCommand && (w.exitCode != 0 || w.blankOutput) then [CommandFailed] else []
    case QuietSkip => [QuietExited]
    case SentDirect =>
      [SentDirectFire] + if Capped(t) && t.unanswered + 1 >= t.maxUnanswered.value then [PausedFire] else []
    case Continued => [ContinuedFire]
  }

  /** What the audit rows tell: every fired occurrence has left one of its kind, a pause its own,
      and a row without any was not touched. */
  lemma AuditTells(cron: Cron, t: Task, w: World, now: int)
    ensures Attempted(t, w).SentDirect? <==> SentDirectFire in Audit(t, w)
    ensures Attempted(t, w).Continued? <==> ContinuedFire in Audit(t, w)
    ensures Attempted(t, w).QuietSkip? <==> QuietExited in Audit(t, w)
    ensures PausedFire in Audit(t, w) <==>
            Attempted(t, w).SentDirect? && t.kind.Repeat? && t.maxUnanswered.Some?
            && 0 < t.maxUnanswered.value <= t.unanswered + 1
    ensures Audit(t, w) == [] ==> After(cron, t, w, now) == t
    ensures |Audit(t, w)| <= 2 && (|Audit(t, w)| == 2 ==> PausedFire in Audit(t, w))
  {
  }

  /** A row without a command goes straight to its dispatch. */
  lemma PlainContract(t: Task, w: World)
    requires !t.hasCommand
    ensures Attempted(t, w).Continued? <==> w.ownersPresent && w.dispatch.Accepted?
    ensures !Attempted(t, w).Continued? ==> !Fires(Attempted(t, w))
  {
  }

  predicate CommandRan(t: Task, w: World)
  {
    w.ownersPresent && t.hasCommand && w.runnerPresent
  }

  /** What the tool promises about a command. Exit 1 quietly skips: the occurrence is spent with
      neither run nor mail. Any other exit but 0, and an empty output, records a failure, and the
      row stays due. Exit 0 goes on with its output: mailed when the agent is off, to an agent run
      otherwise, and the occurrence is spent exactly when that went through. */
  lemma CommandContract(cron: Cron, t: Task, w: World, now: int)
    requires CommandRan(t, w) && Due(t, now)
    ensures Attempted(t, w).QuietSkip? <==> w.exitCode == 1
    ensures w.exitCode == 1 ==> Audit(t, w) == [QuietExited] && !Due(After(cron, t, w, now), now)
    ensures CommandFailed in Audit(t, w) <==> w.exitCode != 1 && (w.exitCode != 0 || w.blankOutput)
    ensures CommandFailed in Audit(t, w) ==> After(cron, t, w, now) == t && Due(After(cron, t, w, now), now)
    ensures w.exitCode == 0 && !w.blankOutput ==>
              && (Attempted(t, w).SentDirect? <==> !t.agentEnabled && w.senderPresent && w.sendOk)
              && (Attempted(t, w).Continued? <==> t.agentEnabled && w.dispatch.Accepted?)
              && (Due(After(cron, t, w, now), now) <==> !Attempted(t, w).SentDirect? && !Attempted(t, w).Continued?)
  {
  }

  /** What one row's turn leaves: the row, its audit rows, the payload mails sent to the user and
      the pause notices attempted. */
  ghost predicate Handled(cron: Cron, t: Task, t': Task, w: World, now: int,
                          fires: seq<Fire>, payloads: nat, notices: nat)
  {
    && t' == After(cron, t, w, now) && fires == Audit(t, w)
    && (Fires(Attempted(t, w)) ==> Fired(cron, t, t', now))
    && payloads == (if Attempted(t, w).SentDirect? then 1 else 0)
    && notices == (if PausedFire in fires then 1 else 0)
  }

  // ---------------------------------------------------------------- rows as objects


  class TaskRow {
    const assistant: string
    const kind: Kind
    const hasCommand: bool
    const agentEnabled: bool
    const maxUnanswered: Option<int>
    var nextRunAt: int
    var lastRunAt: Option<int>
    var status: Status
    var unanswered: nat

    constructor (t: Task)
      ensures Value() == t
    {
      assistant, kind, hasCommand := t.assistant, t.kind, t.hasCommand;
      agentEnabled, maxUnanswered := t.agentEnabled, t.maxUnanswered;
      nextRunAt, lastRunAt, status, unanswered := t.nextRunAt, t.lastRunAt, t.status, t.unanswered;
    }

    function Value(): Task
      reads this
    {
      Task(assistant, kind, hasCommand, agentEnabled, maxUnanswered, nextRunAt, lastRunAt, status, unanswered)
    }

    method MarkFired(cron: Cron, now: int)
      modifies this`nextRunAt, this`lastRunAt, this`status
      ensures kind.Once? ==> status == Completed && nextRunAt == old(nextRunAt)
      ensures kind.Repeat? ==> NextAfter(cron, kind.cronExpr, now, nextRunAt) && status == old(status)
      ensures lastRunAt == Some(now) && Value() == Advanced(cron, old(Value()), now)
    {
      lastRunAt := Some(now);
      match kind {
        case Once => status := Completed;
        case Repeat(expr) =>
          CronIsNext(cron, expr, now);
          nextRunAt := cron(expr, now);
      }
    }

    /** Counts one visible mail; the first to reach the cap pauses the row and is announced. */
    method RecordVisibleNotification() returns (fires: seq<Fire>, notices: nat)
      modifies this`unanswered, this`status
      ensures Value() == Counted(old(Value()), old(unanswered) + 1)
      ensures unanswered == old(unanswered) + 1
      ensures status == if kind.Repeat? && maxUnanswered.Some? && 0 < maxUnanswered.value <= unanswered
                        then Paused else old(status)
      ensures notices == 1 <==> kind.Repeat? && maxUnanswered.Some? && 0 < maxUnanswered.value <= unanswered
      ensures notices == |fires| <= 1 && (notices == 1 ==> fires == [PausedFire])
    {
      unanswered := unanswered + 1;
      fires, notices := [], 0;
      if kind.Once? { return; }
      if maxUnanswered.None? || maxUnanswered.value <= 0 { return; }
      if unanswered < maxUnanswered.value { return; }
      status := Paused;
      fires, notices := [PausedFire], 1;
    }

    /** One iteration of the tick's loop. */
    method Handle(cron: Cron, w: World, now: int) returns (fires: seq<Fire>, payloads: nat, notices: nat)
      modifies this
      ensures Handled(cron, old(Value()), Value(), w, now, fires, payloads, notices)
    {
      fires, payloads, notices := [], 0, 0;
      if !w.ownersPresent { return; }
      if hasCommand {
        if !w.runnerPresent { return; }
        if w.exitCode == 1 {
          MarkFired(cron, now);
          return [QuietExited], 0, 0;
        }
        if w.exitCode != 0 { return [CommandFailed], 0, 0; }
        if w.blankOutput { return [CommandFailed], 0, 0; }
        if !agentEnabled {
          if !w.senderPresent { return; }
          if !w.sendOk { return; }
          MarkFired(cron, now);
          var more, n := RecordVisibleNotification();
          return [SentDirectFire] + more, 1, n;
        }
      }
      match w.dispatch {
        case DispatchRaised => return;
        case Dropped => return;
        case Accepted =>
      }
      MarkFired(cron, now);
      return [ContinuedFire], 0, 0;
    }
  }

  ghost predicate Distinct(rows: seq<TaskRow>)
  {
    forall i, j :: 0 <= i < j < |rows| ==> rows[i] != rows[j]
  }

  function Values(rows: seq<TaskRow>): (ts: seq<Task>)
    reads rows
    ensures |ts| == |rows| && forall i :: 0 <= i < |rows| ==> ts[i] == rows[i].Value()
  {
    if rows == [] then [] else Values(rows[..|rows| - 1]) + [rows[|rows| - 1].Value()]
  }

  /** The loop over the claimed rows: each is handled once, on its own, in claim order. */
  method Tick(cron: Cron, rows: seq<TaskRow>, worlds: seq<World>, now: int)
    returns (fires: seq<seq<Fire>>, payloads: seq<nat>, notices: seq<nat>)
    requires |worlds| == |rows| && Distinct(rows)
    modifies rows
    ensures |fires| == |payloads| == |notices| == |rows|
    ensures forall i :: 0 <= i < |rows| ==>
              Handled(cron, old(Values(rows))[i], rows[i].Value(), worlds[i], now, fires[i], payloads[i], notices[i])
  {
    hide Handled;
    fires, payloads, notices := [], [], [];
    ghost var before := Values(rows);
    for k := 0 to |rows|
      invariant |fires| == |payloads| == |notices| == k
      invariant forall i :: 0 <= i < k ==>
                  Handled(cron, before[i], rows[i].Value(), worlds[i], now, fires[i], payloads[i], notices[i])
      invariant forall i :: k <= i < |rows| ==> rows[i].Value() == before[i]
    {
      var f, p, n := rows[k].Handle(cron, worlds[k], now);
      fires, payloads, notices := fires + [f], payloads + [p], notices + [n];
    }
  }
}
