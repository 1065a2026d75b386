// Inbound acceptance as a protocol over shared tables: any number of webhook and surface
// deliveries, interleaved at their transaction commits, with crashes anywhere.
module InboundProtocol {
  import opened Options
  import opened Threading

  // ---------------------------------------------------------------- the tables

  ghost predicate SameProviderKey(m: Message, a: AssistantId, pid: ProviderId)
  {
    m.assistant == a && m.pid == pid
  }

  /** What `_find_existing` may return. */
  ghost predicate IsExisting(db: Tables, a: AssistantId, pid: ProviderId, seen: Option<MessageId>)
  {
    match seen
    case Some(m) => m in db.messages && SameProviderKey(db.messages[m], a, pid)
    case None => forall m :: m in db.messages ==> !SameProviderKey(db.messages[m], a, pid)
  }

  function NewThread(db: Tables, a: AssistantId, e: Email, t: ThreadId): Tables
  {
    if Resolve(db, a, e).Some? then db else db.(threads := db.threads[t := Thread(a)])
  }

  function AddMessage(db: Tables, m: MessageId, msg: Message): Tables
  {
    db.(messages := db.messages[m := msg], index := db.index[KeyOf(msg) := msg.thread])
  }

  /** The two unique constraints that an insert has to pass. */
  ghost predicate MayAdd(db: Tables, m: MessageId, msg: Message)
  {
    m !in db.messages && IsExisting(db, msg.assistant, msg.pid, None) && KeyOf(msg) !in db.index
  }

  /** What a query for the one run of a message may return; it raises when there are two. */
  ghost predicate IsRunOf(db: Tables, m: MessageId, run: Option<RunId>)
  {
    match run
    case Some(r) =>
      && r in db.runs && db.runs[r].inbound == m
      && forall q :: q in db.runs && db.runs[q].inbound == m ==> q == r
    case None => forall q :: q in db.runs ==> db.runs[q].inbound != m
  }

  /** The run that `_ensure_queued_run` finds, or may create when there is none. */
  ghost predicate MayEnsure(db: Tables, m: MessageId, r: RunId)
  {
    if r in db.runs then db.runs[r].inbound == m
    else forall q :: q in db.runs ==> db.runs[q].inbound != m
  }

  function EnsureRun(db: Tables, a: AssistantId, t: ThreadId, m: MessageId, r: RunId): Tables
  {
    if r in db.runs then db else db.(runs := db.runs[r := Run(a, t, m)])
  }

  function InboundMessage(a: AssistantId, t: ThreadId, e: Email): Message
  {
    Message(a, t, Inbound, e.pid, e.header, e.references, e.body)
  }

  // ---------------------------------------------------------------- table invariant

  ghost predicate MessageOk(db: Tables, m: MessageId)
  {
    m in db.messages ==>
      && db.messages[m].thread in db.threads
      && db.threads[db.messages[m].thread].assistant == db.messages[m].assistant
  }

  ghost predicate OnceByProvider(db: Tables, m: MessageId, n: MessageId)
  {
    && m in db.messages && n in db.messages
    && SameProviderKey(db.messages[m], db.messages[n].assistant, db.messages[n].pid)
    ==> m == n
  }

  /** A run belongs to a stored message of its assistant; an inbound one shares its thread. */
  ghost predicate RunOk(db: Tables, r: RunId)
  {
    r in db.runs ==>
      && db.runs[r].thread in db.threads && db.threads[db.runs[r].thread].assistant == db.runs[r].assistant
      && db.runs[r].inbound in db.messages
      && db.messages[db.runs[r].inbound].assistant == db.runs[r].assistant
      && (db.messages[db.runs[r].inbound].direction.Inbound? ==>
            db.messages[db.runs[r].inbound].thread == db.runs[r].thread)
  }

  /** A run whose "inbound" message is one of the assistant's own replies. */
  ghost predicate ForReply(db: Tables, r: RunId)
  {
    r in db.runs && db.runs[r].inbound in db.messages && db.messages[db.runs[r].inbound].direction.Outbound?
  }

  /** An inbound message has no two runs. */
  ghost predicate OneRun(db: Tables, q: RunId, r: RunId)
  {
    q in db.runs && r in db.runs && db.runs[q].inbound == db.runs[r].inbound && !ForReply(db, r) ==> q == r
  }

  ghost predicate HasRun(db: Tables, m: MessageId)
  {
    m in db.messages && db.messages[m].direction.Inbound? ==> exists r :: r in db.runs && db.runs[r].inbound == m
  }

  /** What holds whatever provider ids are used. */
  ghost predicate Consistent(db: Tables)
  {
    && IndexInv(db)
    && (forall m :: MessageOk(db, m))
    && (forall m, n :: OnceByProvider(db, m, n))
    && (forall r :: RunOk(db, r))
    && (forall q, r :: OneRun(db, q, r))
    && (forall m :: HasRun(db, m))
  }

  /** And what is meant to hold: runs are for inbound messages only. */
  ghost predicate TablesInv(db: Tables)
  {
    Consistent(db) && forall r :: !ForReply(db, r)
  }

  /** Rows are only ever added. */
  ghost predicate Grows(db: Tables, db': Tables)
  {
    && (forall t :: t in db.threads ==> t in db'.threads && db'.threads[t] == db.threads[t])
    && (forall m :: m in db.messages ==> m in db'.messages && db'.messages[m] == db.messages[m])
    && (forall k :: k in db.index ==> k in db'.index && db'.index[k] == db.index[k])
    && (forall r :: r in db.runs ==> r in db'.runs && db'.runs[r] == db.runs[r])
  }

  lemma NewThreadKeeps(db: Tables, a: AssistantId, e: Email, t: ThreadId)
    requires Consistent(db) && t !in db.threads
    ensures Consistent(NewThread(db, a, e, t)) && Grows(db, NewThread(db, a, e, t))
  {
    var db' := NewThread(db, a, e, t);
    forall m ensures Indexed(db', m) && MessageOk(db', m) && HasRun(db', m) {
      assert Indexed(db, m) && MessageOk(db, m) && HasRun(db, m);
    }
    forall k ensures Backed(db', k) { assert Backed(db, k); }
    forall m, n ensures OnceByProvider(db', m, n) { assert OnceByProvider(db, m, n); }
    forall r ensures RunOk(db', r) { assert RunOk(db, r); }
    forall q, r ensures OneRun(db', q, r) { assert OneRun(db, q, r); }
  }

  /** Adding a message keeps everything but, for an inbound one, the existence of its run. */
  lemma AddMessageKeeps(db: Tables, m: MessageId, msg: Message)
    requires Consistent(db) && MayAdd(db, m, msg)
    requires msg.thread in db.threads && db.threads[msg.thread].assistant == msg.assistant
    ensures Grows(db, AddMessage(db, m, msg))
    ensures var db' := AddMessage(db, m, msg);
            && IndexInv(db') && (forall n :: MessageOk(db', n)) && (forall n, o :: OnceByProvider(db', n, o))
            && (forall r :: RunOk(db', r)) && (forall q, r :: OneRun(db', q, r))
            && (forall n :: n != m ==> HasRun(db', n)) && (forall r :: r in db'.runs ==> db'.runs[r].inbound != m)
  {
    var db' := AddMessage(db, m, msg);
    forall n ensures Indexed(db', n) && MessageOk(db', n) {
      assert Indexed(db, n) && MessageOk(db, n);
    }
    forall k ensures Backed(db', k) {
      assert Backed(db, k);
      if k in db.index {
        var n :| n in db.messages && KeyOf(db.messages[n]) == k && db.messages[n].thread == db.index[k];
        assert n in db'.messages && db'.messages[n] == db.messages[n];
      } else if k in db'.index {
        assert m in db'.messages && db'.messages[m] == msg;
      }
    }
    forall n, o ensures OnceByProvider(db', n, o) { assert OnceByProvider(db, n, o); }
    forall r ensures RunOk(db', r) && (r in db'.runs ==> db'.runs[r].inbound != m) { assert RunOk(db, r); }
    forall q, r ensures OneRun(db', q, r) { assert OneRun(db, q, r); }
    forall n | n != m ensures HasRun(db', n) { assert HasRun(db, n); }
  }

  /** Persisting an inbound message together with its run, in one transaction. */
  lemma AcceptKeeps(db: Tables, a: AssistantId, t: ThreadId, e: Email, m: MessageId, r: RunId)
    requires Consistent(db) && MayAdd(db, m, InboundMessage(a, t, e)) && r !in db.runs
    requires t in db.threads && db.threads[t].assistant == a
    ensures var db' := EnsureRun(AddMessage(db, m, InboundMessage(a, t, e)), a, t, m, r);
            Consistent(db') && Grows(db, db')
  {
    AddMessageKeeps(db, m, InboundMessage(a, t, e));
    var mid := AddMessage(db, m, InboundMessage(a, t, e));
    var db' := EnsureRun(mid, a, t, m, r);
    forall n ensures Indexed(db', n) && MessageOk(db', n) && HasRun(db', n) {
      assert Indexed(mid, n) && MessageOk(mid, n);
      if n == m {
        assert r in db'.runs && db'.runs[r].inbound == m;
      } else {
        assert HasRun(mid, n);
        if q :| q in mid.runs && mid.runs[q].inbound == n { assert q in db'.runs && db'.runs[q].inbound == n; }
      }
    }
    forall k ensures Backed(db', k) { assert Backed(mid, k); }
    forall n, o ensures OnceByProvider(db', n, o) { assert OnceByProvider(mid, n, o); }
    forall q ensures RunOk(db', q) { assert RunOk(mid, q); }
    forall p, q ensures OneRun(db', p, q) { assert OneRun(mid, p, q); }
  }

  lemma RecordReplyKeeps(db: Tables, m: MessageId, msg: Message)
    requires Consistent(db) && MayAdd(db, m, msg) && msg.direction.Outbound?
    requires msg.thread in db.threads && db.threads[msg.thread].assistant == msg.assistant
    ensures Consistent(AddMessage(db, m, msg)) && Grows(db, AddMessage(db, m, msg))
  {
    AddMessageKeeps(db, m, msg);
    assert HasRun(AddMessage(db, m, msg), m);
  }

  /** A run inserted for a reply found in place of a new message, no run for it having been read. */
  lemma RunForReplyKeeps(db: Tables, a: AssistantId, t: ThreadId, m: MessageId, r: RunId)
    requires Consistent(db) && m in db.messages && db.messages[m].assistant == a && db.messages[m].direction.Outbound?
    requires t in db.threads && db.threads[t].assistant == a && r !in db.runs
    ensures Consistent(EnsureRun(db, a, t, m, r)) && Grows(db, EnsureRun(db, a, t, m, r))
    ensures ForReply(EnsureRun(db, a, t, m, r), r)
  {
    var db' := EnsureRun(db, a, t, m, r);
    forall n ensures Indexed(db', n) && MessageOk(db', n) && HasRun(db', n) {
      assert Indexed(db, n) && MessageOk(db, n) && HasRun(db, n);
      if q :| q in db.runs && db.runs[q].inbound == n { assert q in db'.runs && db'.runs[q].inbound == n; }
    }
    forall k ensures Backed(db', k) { assert Backed(db, k); }
    forall n, o ensures OnceByProvider(db', n, o) { assert OnceByProvider(db, n, o); }
    forall q ensures RunOk(db', q) { assert RunOk(db, q); }
    forall p, q ensures OneRun(db', p, q) {
      assert OneRun(db, p, q) && RunOk(db, p) && RunOk(db, q);
    }
  }

  /** So an inbound message that was found has its run, and a query returns it. */
  lemma FoundHasRun(db: Tables, m: MessageId, run: Option<RunId>)
    requires Consistent(db) && m in db.messages && IsRunOf(db, m, run)
    ensures run.None? ==> db.messages[m].direction.Outbound?
  {
    assert HasRun(db, m);
  }

  /** `_find_existing` does not look at the direction: ensuring a run for the message it found
      keeps runs to inbound messages if and only if that message is one. */
  lemma ReusedIdMakesRunForReply(db: Tables, a: AssistantId, t: ThreadId, m: MessageId, r: RunId)
    requires TablesInv(db) && m in db.messages && MayEnsure(db, m, r)
    ensures TablesInv(EnsureRun(db, a, t, m, r)) <==> db.messages[m].direction.Inbound?
  {
    assert HasRun(db, m);
    if db.messages[m].direction.Outbound? {
      assert !ForReply(db, r);
      assert ForReply(EnsureRun(db, a, t, m, r), r);
    }
  }

  // ---------------------------------------------------------------- the protocol

  /** Where one `accept_inbound` or `accept_surface_action` call stands between commits. */
  datatype Phase =
    | Received
    | Resolved(thread: ThreadId)
    | Reading(thread: ThreadId, seen: Option<MessageId>, queued: Option<RunId>)
    | Committed(message: MessageId, run: RunId, thread: ThreadId, created: bool)
    | Finished(message: MessageId, run: RunId, thread: ThreadId, created: bool)
    | Dead

  datatype Delivery = Delivery(assistant: AssistantId, email: Email, surface: bool, phase: Phase)

  datatype State = State(
    db: Tables,
    deliveries: map<nat, Delivery>,
    enqueued: multiset<RunId>,  // every defer of a run_agent job so far
    lost: set<RunId>)           // runs whose creator died between its commit and its defer

  datatype Step =
    | Receive(d: nat, assistant: AssistantId, email: Email, surface: bool)
    | SurfaceHit(d: nat, message: MessageId, run: RunId)
    | ResolveStep(d: nat, newThread: ThreadId)
    | Find(d: nat, seen: Option<MessageId>, queued: Option<RunId>)
    | Commit(d: nat, newMessage: MessageId, run: RunId)
    | Die(d: nat)
    | Defer(d: nat)
    | RecordReply(run: RunId, message: MessageId, pid: ProviderId, envelope: Envelope)

  ghost predicate At(s: State, d: nat)
  {
    d in s.deliveries && !s.deliveries[d].phase.Dead? && !s.deliveries[d].phase.Finished?
  }

  ghost predicate Enabled(s: State, step: Step)
  {
    match step
    case Receive(d, a, e, surface) => d !in s.deliveries
    case SurfaceHit(d, m, r) =>
      && At(s, d) && s.deliveries[d].surface && s.deliveries[d].phase.Received?
      && IsExisting(s.db, s.deliveries[d].assistant, s.deliveries[d].email.pid, Some(m))
      && IsRunOf(s.db, m, Some(r))
    case ResolveStep(d, t) => At(s, d) && s.deliveries[d].phase.Received? && t !in s.db.threads
    case Find(d, seen, queued) =>
      && At(s, d) && s.deliveries[d].phase.Resolved?
      && IsExisting(s.db, s.deliveries[d].assistant, s.deliveries[d].email.pid, seen)
      && (if seen.Some? then IsRunOf(s.db, seen.value, queued) else queued.None?)
    case Commit(d, m, r) =>
      && At(s, d) && s.deliveries[d].phase.Reading?
      && var del := s.deliveries[d];
      (match del.phase.seen
       case Some(found) => if del.phase.queued.Some? then r == del.phase.queued.value else r !in s.db.runs
       case None => MayAdd(s.db, m, InboundMessage(del.assistant, del.phase.thread, del.email)) && r !in s.db.runs)
    case Die(d) => At(s, d)
    case Defer(d) => At(s, d) && s.deliveries[d].phase.Committed?
    case RecordReply(r, m, pid, env) =>
      && r in s.db.runs
      && if !IsExisting(s.db, s.db.runs[r].assistant, pid, None)
         then IsExisting(s.db, s.db.runs[r].assistant, pid, Some(m))
         else MayAdd(s.db, m, ReplyRow(s.db.runs[r], pid, env))
  }

  function ReplyRow(run: Run, pid: ProviderId, env: Envelope): Message
  {
    Message(run.assistant, run.thread, Outbound, pid, env.header, env.references, env.body)
  }

  function Move(s: State, d: nat, phase: Phase): State
    requires d in s.deliveries
  {
    s.(deliveries := s.deliveries[d := s.deliveries[d].(phase := phase)])
  }

  ghost function Apply(s: State, step: Step): State
    requires Enabled(s, step)
  {
    match step
    case Receive(d, a, e, surface) => s.(deliveries := s.deliveries[d := Delivery(a, e, surface, Received)])
    case SurfaceHit(d, m, r) => Move(s, d, Finished(m, r, s.db.messages[m].thread, false))
    case ResolveStep(d, t) =>
      var del := s.deliveries[d];
      var found := Resolve(s.db, del.assistant, del.email);
      Move(s, d, Resolved(if found.Some? then found.value else t))
        .(db := NewThread(s.db, del.assistant, del.email, t))
    case Find(d, seen, queued) => Move(s, d, Reading(s.deliveries[d].phase.thread, seen, queued))
    case Commit(d, m, r) =>
      var del := s.deliveries[d];
      var t := del.phase.thread;
      (match del.phase.seen
       case Some(found) =>
         Move(s, d, Committed(found, r, t, false)).(db := EnsureRun(s.db, del.assistant, t, found, r))
       case None =>
         Move(s, d, Committed(m, r, t, true))
           .(db := EnsureRun(AddMessage(s.db, m, InboundMessage(del.assistant, t, del.email)), del.assistant, t, m, r)))
    case Die(d) =>
      var p := s.deliveries[d].phase;
      Move(s, d, Dead).(lost := if p.Committed? && p.created then s.lost + {p.run} else s.lost)
    case Defer(d) =>
      var p := s.deliveries[d].phase;
      Move(s, d, Finished(p.message, p.run, p.thread, p.created))
        .(enqueued := if p.created then s.enqueued + multiset{p.run} else s.enqueued)
    case RecordReply(r, m, pid, env) =>
      if m in s.db.messages then s else s.(db := AddMessage(s.db, m, ReplyRow(s.db.runs[r], pid, env)))
  }

  // ---------------------------------------------------------------- invariant

  ghost predicate Answered(s: State, del: Delivery, m: MessageId, r: RunId, created: bool, t: ThreadId)
  {
    && IsExisting(s.db, del.assistant, del.email.pid, Some(m))
    && r in s.db.runs && s.db.runs[r].inbound == m
    && (created ==>
          var msg := s.db.messages[m];
          msg.thread == t && msg.direction.Inbound? && Carried(msg, del.email))
  }

  /** The stored message is the mail: its id, its headers and its text. */
  predicate Carried(msg: Message, e: Email)
  {
    msg.pid == e.pid && msg.header == e.header && msg.references == e.references && msg.body == e.body
  }

  /** A run that was read is there, and none was read only for a reply. */
  ghost predicate Read(s: State, m: MessageId, queued: Option<RunId>)
    requires m in s.db.messages
  {
    match queued
    case Some(r) => r in s.db.runs && s.db.runs[r].inbound == m
    case None => s.db.messages[m].direction.Outbound?
  }

  ghost predicate OwnThread(s: State, del: Delivery, t: ThreadId)
  {
    t in s.db.threads && s.db.threads[t].assistant == del.assistant
  }

  ghost predicate DeliveryOk(s: State, d: nat)
  {
    d in s.deliveries ==>
      var del := s.deliveries[d];
      match del.phase
      case Received => true
      case Resolved(t) => OwnThread(s, del, t)
      case Reading(t, seen, queued) =>
        && OwnThread(s, del, t)
        && (seen.Some? ==> IsExisting(s.db, del.assistant, del.email.pid, seen) && Read(s, seen.value, queued))
      case Committed(m, r, t, created) => Answered(s, del, m, r, created, t)
      case Finished(m, r, t, created) => Answered(s, del, m, r, created, t)
      case Dead => true
  }

  /** Delivery `d` has created run `r` and has yet to enqueue it. */
  ghost predicate Owes(s: State, d: nat, r: RunId)
  {
    && d in s.deliveries && s.deliveries[d].phase.Committed?
    && s.deliveries[d].phase.created && s.deliveries[d].phase.run == r
  }

  ghost predicate OwedOnce(s: State, c: nat, d: nat, r: RunId)
  {
    Owes(s, c, r) && Owes(s, d, r) ==> c == d
  }

  /** Every run for an inbound message is in exactly one of three places: enqueued once, owed by
      one delivery, lost. A run for a reply is in none. */
  ghost predicate Accounted(s: State, r: RunId)
  {
    && s.enqueued[r] <= 1
    && (r in s.enqueued ==> r in s.db.runs && !ForReply(s.db, r) && r !in s.lost)
    && (r in s.lost ==> r in s.db.runs && !ForReply(s.db, r))
    && (r in s.enqueued || r in s.lost || ForReply(s.db, r) ==> forall d :: !Owes(s, d, r))
    && (r in s.db.runs && !ForReply(s.db, r) && r !in s.enqueued && r !in s.lost ==> exists d :: Owes(s, d, r))
  }

  /** Delivery `d` came with the provider id of this message. */
  ghost predicate Carries(s: State, d: nat, msg: Message)
  {
    d in s.deliveries && SameProviderKey(msg, s.deliveries[d].assistant, s.deliveries[d].email.pid)
  }

  /** A run for a reply is there only because a delivery came with that reply's provider id. */
  ghost predicate StrayOk(s: State, r: RunId)
  {
    ForReply(s.db, r) ==> exists d :: Carries(s, d, s.db.messages[s.db.runs[r].inbound])
  }

  ghost predicate Inv(s: State)
  {
    && Consistent(s.db)
    && (forall d :: DeliveryOk(s, d))
    && (forall c, d, r :: OwedOnce(s, c, d, r))
    && (forall r :: Accounted(s, r))
    && (forall r :: StrayOk(s, r))
  }

  const EMPTY := State(Tables(map[], map[], map[], map[]), map[], multiset{}, {})

  lemma EmptyInv()
    ensures Inv(EMPTY)
  {
  }

  ghost predicate SameMail(s: State, s': State, c: nat)
    requires c in s.deliveries
  {
    && c in s'.deliveries
    && s'.deliveries[c].assistant == s.deliveries[c].assistant && s'.deliveries[c].email == s.deliveries[c].email
  }

  /** Tables grow, and at most delivery `d` is new or changes its phase. */
  ghost predicate Moves(s: State, s': State, d: nat)
  {
    && Grows(s.db, s'.db)
    && (forall c :: c in s.deliveries ==> SameMail(s, s', c))
    && (forall c :: c in s'.deliveries && c != d ==> c in s.deliveries && s'.deliveries[c] == s.deliveries[c])
  }

  lemma DeliveriesKept(s: State, s': State, d: nat)
    requires forall c :: DeliveryOk(s, c)
    requires Moves(s, s', d) && DeliveryOk(s', d)
    ensures forall c :: DeliveryOk(s', c)
  {
    forall c ensures DeliveryOk(s', c) {
      assert DeliveryOk(s, c);
    }
  }

  lemma ForReplyKept(s: State, s': State, r: RunId)
    requires Consistent(s.db) && Grows(s.db, s'.db) && r in s.db.runs
    ensures ForReply(s'.db, r) <==> ForReply(s.db, r)
  {
    assert RunOk(s.db, r);
  }

  lemma StraysKept(s: State, s': State, d: nat)
    requires Inv(s) && Moves(s, s', d)
    requires forall r :: r in s'.db.runs && r !in s.db.runs ==> StrayOk(s', r)
    ensures forall r :: StrayOk(s', r)
  {
    forall r ensures StrayOk(s', r) {
      if r in s.db.runs && ForReply(s'.db, r) {
        ForReplyKept(s, s', r);
        assert StrayOk(s, r);
        var c :| Carries(s, c, s.db.messages[s.db.runs[r].inbound]);
        assert Carries(s', c, s'.db.messages[s'.db.runs[r].inbound]);
      }
    }
  }

  /** A step that owes, enqueues and loses nothing keeps the accounting; the runs it adds, if
      any, are for replies. */
  lemma AccountingKept(s: State, s': State)
    requires Inv(s) && Grows(s.db, s'.db) && s'.enqueued == s.enqueued && s'.lost == s.lost
    requires forall d, r :: Owes(s', d, r) <==> Owes(s, d, r)
    requires forall r :: r in s'.db.runs && r !in s.db.runs ==> ForReply(s'.db, r) && forall d :: !Owes(s, d, r)
    ensures forall r :: Accounted(s', r)
    ensures forall c, d, r :: OwedOnce(s', c, d, r)
  {
    forall r ensures Accounted(s', r) {
      assert Accounted(s, r);
      if r in s.db.runs { ForReplyKept(s, s', r); }
      if d :| Owes(s, d, r) { assert Owes(s', d, r); }
    }
    forall c, d, r ensures OwedOnce(s', c, d, r) { assert OwedOnce(s, c, d, r); }
  }

  /** A delivery moves on without touching runs or queue. */
  lemma QuietStepKeepsInv(s: State, s': State, d: nat)
    requires Inv(s) && Consistent(s'.db) && Moves(s, s', d) && DeliveryOk(s', d)
    requires s'.db.runs == s.db.runs && s'.enqueued == s.enqueued && s'.lost == s.lost
    requires forall r :: !Owes(s, d, r) && !Owes(s', d, r)
    ensures Inv(s')
  {
    DeliveriesKept(s, s', d);
    StraysKept(s, s', d);
    forall c, q ensures Owes(s', c, q) <==> Owes(s, c, q) {}
    AccountingKept(s, s');
  }

  lemma ReceiveKeepsInv(s: State, d: nat, a: AssistantId, e: Email, surface: bool)
    requires Inv(s) && Enabled(s, Receive(d, a, e, surface))
    ensures Inv(Apply(s, Receive(d, a, e, surface)))
  {
    QuietStepKeepsInv(s, Apply(s, Receive(d, a, e, surface)), d);
  }

  lemma SurfaceHitKeepsInv(s: State, d: nat, m: MessageId, r: RunId)
    requires Inv(s) && Enabled(s, SurfaceHit(d, m, r))
    ensures Inv(Apply(s, SurfaceHit(d, m, r)))
  {
    QuietStepKeepsInv(s, Apply(s, SurfaceHit(d, m, r)), d);
  }

  lemma ResolveKeepsInv(s: State, d: nat, t: ThreadId)
    requires Inv(s) && Enabled(s, ResolveStep(d, t))
    ensures Inv(Apply(s, ResolveStep(d, t))) && Grows(s.db, Apply(s, ResolveStep(d, t)).db)
  {
    var del := s.deliveries[d];
    ResolveKeepsAssistant(s.db, del.assistant, del.email);
    NewThreadKeeps(s.db, del.assistant, del.email, t);
    QuietStepKeepsInv(s, Apply(s, ResolveStep(d, t)), d);
  }

  lemma FindKeepsInv(s: State, d: nat, seen: Option<MessageId>, queued: Option<RunId>)
    requires Inv(s) && Enabled(s, Find(d, seen, queued))
    ensures Inv(Apply(s, Find(d, seen, queued)))
  {
    assert DeliveryOk(s, d);
    if seen.Some? { FoundHasRun(s.db, seen.value, queued); }
    QuietStepKeepsInv(s, Apply(s, Find(d, seen, queued)), d);
  }

  lemma RecordKeepsInv(s: State, r: RunId, m: MessageId, pid: ProviderId, env: Envelope)
    requires Inv(s) && Enabled(s, RecordReply(r, m, pid, env))
    ensures Inv(Apply(s, RecordReply(r, m, pid, env))) && Grows(s.db, Apply(s, RecordReply(r, m, pid, env)).db)
  {
    var s' := Apply(s, RecordReply(r, m, pid, env));
    if m !in s.db.messages {
      assert RunOk(s.db, r);
      RecordReplyKeeps(s.db, m, ReplyRow(s.db.runs[r], pid, env));
      forall d ensures DeliveryOk(s', d) { assert DeliveryOk(s, d); }
      StraysKept(s, s', 0);
      forall c, q ensures Owes(s', c, q) <==> Owes(s, c, q) {}
      AccountingKept(s, s');
    }
  }

  /** A run that is new and owed by its creator. */
  lemma CreatedKeepsAccounting(s: State, s': State, d: nat, r: RunId)
    requires Inv(s) && Grows(s.db, s'.db) && s'.enqueued == s.enqueued && s'.lost == s.lost
    requires r !in s.db.runs && s'.db.runs.Keys == s.db.runs.Keys + {r} && !ForReply(s'.db, r)
    requires forall c, q :: Owes(s', c, q) <==> Owes(s, c, q) || (c == d && q == r)
    ensures (forall q :: Accounted(s', q)) && forall b, c, q :: OwedOnce(s', b, c, q)
  {
    forall c ensures !Owes(s, c, r) { assert DeliveryOk(s, c); }
    assert Owes(s', d, r);
    forall q ensures Accounted(s', q) {
      assert Accounted(s, q);
      if q in s.db.runs { ForReplyKept(s, s', q); }
      if c :| Owes(s, c, q) { assert Owes(s', c, q); }
    }
    forall b, c, q ensures OwedOnce(s', b, c, q) { assert OwedOnce(s, b, c, q); }
  }

  /** A first delivery adds its message and its run, and owes that run to the queue. */
  lemma FirstCommitKeepsInv(s: State, d: nat, m: MessageId, r: RunId)
    requires Inv(s) && Enabled(s, Commit(d, m, r)) && s.deliveries[d].phase.seen.None?
    ensures Inv(Apply(s, Commit(d, m, r))) && Grows(s.db, Apply(s, Commit(d, m, r)).db)
  {
    var s' := Apply(s, Commit(d, m, r));
    var del := s.deliveries[d];
    assert DeliveryOk(s, d);
    AcceptKeeps(s.db, del.assistant, del.phase.thread, del.email, m, r);
    DeliveriesKept(s, s', d);
    StraysKept(s, s', d);
    CreatedKeepsAccounting(s, s', d, r);
  }

  lemma InsertedRunKeepsInv(s: State, d: nat, m: MessageId, r: RunId)
    requires Inv(s) && Enabled(s, Commit(d, m, r))
    requires s.deliveries[d].phase.seen.Some? && s.deliveries[d].phase.queued.None?
    ensures Inv(Apply(s, Commit(d, m, r))) && Grows(s.db, Apply(s, Commit(d, m, r)).db)
  {
    var s' := Apply(s, Commit(d, m, r));
    var del := s.deliveries[d];
    var found := del.phase.seen.value;
    assert DeliveryOk(s, d);
    RunForReplyKeeps(s.db, del.assistant, del.phase.thread, found, r);
    DeliveriesKept(s, s', d);
    assert Carries(s', d, s'.db.messages[found]);
    StraysKept(s, s', d);
    forall c ensures !Owes(s, c, r) { assert DeliveryOk(s, c); }
    forall c, q ensures Owes(s', c, q) <==> Owes(s, c, q) {}
    AccountingKept(s, s');
  }

  /** A repeated one adds at most a run for the reply whose provider id it came with. */
  lemma RepeatedCommitKeepsInv(s: State, d: nat, m: MessageId, r: RunId)
    requires Inv(s) && Enabled(s, Commit(d, m, r)) && s.deliveries[d].phase.seen.Some?
    ensures Inv(Apply(s, Commit(d, m, r))) && Grows(s.db, Apply(s, Commit(d, m, r)).db)
  {
    assert DeliveryOk(s, d);
    if s.deliveries[d].phase.queued.Some? {
      QuietStepKeepsInv(s, Apply(s, Commit(d, m, r)), d);
    } else {
      InsertedRunKeepsInv(s, d, m, r);
    }
  }

  /** What one delivery owed is now enqueued or lost. */
  lemma SettledKeepsAccounting(s: State, s': State, d: nat, r: RunId)
    requires Inv(s) && s'.db == s.db && Owes(s, d, r)
    requires forall c, q :: Owes(s', c, q) <==> Owes(s, c, q) && c != d
    requires || (s'.enqueued == s.enqueued + multiset{r} && s'.lost == s.lost)
             || (s'.enqueued == s.enqueued && s'.lost == s.lost + {r})
    ensures (forall q :: Accounted(s', q)) && forall b, c, q :: OwedOnce(s', b, c, q)
  {
    assert DeliveryOk(s, d);
    forall q ensures Accounted(s', q) {
      assert Accounted(s, q);
      if c :| Owes(s, c, q) {
        if q == r { assert OwedOnce(s, c, d, r); } else { assert Owes(s', c, q); }
      }
      forall c ensures !Owes(s', c, r) { assert OwedOnce(s, c, d, r); }
    }
    forall b, c, q ensures OwedOnce(s', b, c, q) { assert OwedOnce(s, b, c, q); }
  }

  lemma DieKeepsInv(s: State, d: nat)
    requires Inv(s) && Enabled(s, Die(d))
    ensures Inv(Apply(s, Die(d)))
  {
    var s', p := Apply(s, Die(d)), s.deliveries[d].phase;
    if p.Committed? && p.created {
      assert Owes(s, d, p.run);
      DeliveriesKept(s, s', d);
      StraysKept(s, s', d);
      SettledKeepsAccounting(s, s', d, p.run);
    } else {
      QuietStepKeepsInv(s, s', d);
    }
  }

  lemma DeferKeepsInv(s: State, d: nat)
    requires Inv(s) && Enabled(s, Defer(d))
    ensures Inv(Apply(s, Defer(d)))
  {
    var s', p := Apply(s, Defer(d)), s.deliveries[d].phase;
    if p.Committed? && p.created {
      assert Owes(s, d, p.run);
      DeliveriesKept(s, s', d);
      StraysKept(s, s', d);
      SettledKeepsAccounting(s, s', d, p.run);
    } else {
      assert DeliveryOk(s, d);
      QuietStepKeepsInv(s, s', d);
    }
  }

  /** Every step keeps the invariant and only ever adds rows. */
  lemma StepKeepsInv(s: State, step: Step)
    requires Inv(s) && Enabled(s, step)
    ensures Inv(Apply(s, step)) && Grows(s.db, Apply(s, step).db)
  {
    match step {
      case Receive(d, a, e, surface) => ReceiveKeepsInv(s, d, a, e, surface);
      case SurfaceHit(d, m, r) => SurfaceHitKeepsInv(s, d, m, r);
      case ResolveStep(d, t) => ResolveKeepsInv(s, d, t);
      case Find(d, seen, queued) => FindKeepsInv(s, d, seen, queued);
      case Commit(d, m, r) =>
        if s.deliveries[d].phase.seen.None? {
          FirstCommitKeepsInv(s, d, m, r);
        } else {
          RepeatedCommitKeepsInv(s, d, m, r);
        }
      case Die(d) => DieKeepsInv(s, d);
      case Defer(d) => DeferKeepsInv(s, d);
      case RecordReply(r, m, pid, env) => RecordKeepsInv(s, r, m, pid, env);
    }
  }

  // ---------------------------------------------------------------- whole runs

  ghost predicate Runs(s: State, steps: seq<Step>, s': State)
    decreases |steps|
  {
    if steps == [] then s == s' else Enabled(s, steps[0]) && Runs(Apply(s, steps[0]), steps[1..], s')
  }

  lemma {:induction false} RunsKeepInv(s: State, steps: seq<Step>, s': State)
    requires Inv(s) && Runs(s, steps, s')
    ensures Inv(s') && Grows(s.db, s'.db)
    decreases |steps|
  {
    if steps != [] {
      StepKeepsInv(s, steps[0]);
      RunsKeepInv(Apply(s, steps[0]), steps[1..], s');
    }
  }

  /** In every state the protocol can reach, whatever ids callers choose: one message per
      assistant and provider id, one run per inbound message, in that message's thread, and no
      run enqueued twice. */
  lemma ExactlyOneRun(steps: seq<Step>, s: State)
    requires Runs(EMPTY, steps, s)
    ensures forall m, n :: m in s.db.messages && n in s.db.messages && m != n ==>
              s.db.messages[m].assistant != s.db.messages[n].assistant || s.db.messages[m].pid != s.db.messages[n].pid
    ensures forall m :: m in s.db.messages && s.db.messages[m].direction.Inbound? ==>
              exists r :: r in s.db.runs && s.db.runs[r].inbound == m
                          && s.db.runs[r].thread == s.db.messages[m].thread
                          && forall q :: q in s.db.runs && s.db.runs[q].inbound == m ==> q == r
    ensures forall r :: s.enqueued[r] <= 1
  {
    EmptyInv();
    RunsKeepInv(EMPTY, steps, s);
    forall m, n | m in s.db.messages && n in s.db.messages && m != n
      ensures s.db.messages[m].assistant != s.db.messages[n].assistant || s.db.messages[m].pid != s.db.messages[n].pid
    {
      assert OnceByProvider(s.db, m, n);
    }
    forall m | m in s.db.messages && s.db.messages[m].direction.Inbound?
      ensures exists r :: r in s.db.runs && s.db.runs[r].inbound == m
                          && s.db.runs[r].thread == s.db.messages[m].thread
                          && forall q :: q in s.db.runs && s.db.runs[q].inbound == m ==> q == r
    {
      assert HasRun(s.db, m);
      var r :| r in s.db.runs && s.db.runs[r].inbound == m;
      assert RunOk(s.db, r);
      forall q | q in s.db.runs && s.db.runs[q].inbound == m ensures q == r { assert OneRun(s.db, q, r); }
    }
    forall r ensures s.enqueued[r] <= 1 { assert Accounted(s, r); }
  }

  /** Every delivery that was answered as the first of its mail left that mail in the tables, in
      the thread it reported, with its header leading there and a run for it; and every other step
      of every run leaves it so. */
  lemma CreatedIsStored(steps: seq<Step>, s: State, d: nat)
    requires Runs(EMPTY, steps, s) && d in s.deliveries
    requires s.deliveries[d].phase.Finished? && s.deliveries[d].phase.created
    ensures var a, e, p := s.deliveries[d].assistant, s.deliveries[d].email, s.deliveries[d].phase;
            && p.message in s.db.messages
            && (var msg := s.db.messages[p.message];
                && msg.direction == Inbound && msg.assistant == a && msg.thread == p.thread && msg.pid == e.pid
                && msg.header == e.header && msg.references == e.references && msg.body == e.body)
            && Key(a, e.header) in s.db.index && s.db.index[Key(a, e.header)] == p.thread
            && p.run in s.db.runs && s.db.runs[p.run] == Run(a, p.thread, p.message)
  {
    EmptyInv();
    RunsKeepInv(EMPTY, steps, s);
    assert DeliveryOk(s, d);
    assert Indexed(s.db, s.deliveries[d].phase.message) && RunOk(s.db, s.deliveries[d].phase.run);
  }

  /** A recorded reply holds what was sent, in its run's thread, and its header leads there. */
  lemma RecordedReplyIsStored(s: State, r: RunId, m: MessageId, pid: ProviderId, env: Envelope)
    requires Enabled(s, RecordReply(r, m, pid, env)) && m !in s.db.messages
    ensures var db := Apply(s, RecordReply(r, m, pid, env)).db;
            && m in db.messages && db.messages[m].direction == Outbound && db.messages[m].pid == pid
            && db.messages[m].assistant == s.db.runs[r].assistant && db.messages[m].thread == s.db.runs[r].thread
            && db.messages[m].header == env.header && db.messages[m].references == env.references
            && db.messages[m].body == env.body
            && Key(s.db.runs[r].assistant, env.header) in db.index
            && db.index[Key(s.db.runs[r].assistant, env.header)] == s.db.runs[r].thread
  {
  }

  /** No delivery came with the provider id of a stored reply. */
  ghost predicate IdsApart(s: State)
  {
    forall d, m :: m in s.db.messages && s.db.messages[m].direction.Outbound? ==> !Carries(s, d, s.db.messages[m])
  }

  /** As long as deliveries do not come with the ids of replies, runs are for inbound messages only. */
  lemma IdsApartSuffice(steps: seq<Step>, s: State)
    requires Runs(EMPTY, steps, s) && IdsApart(s)
    ensures TablesInv(s.db)
  {
    EmptyInv();
    RunsKeepInv(EMPTY, steps, s);
    forall r ensures !ForReply(s.db, r) { assert StrayOk(s, r); }
  }

  ghost function InboundRuns(db: Tables): set<RunId>
  {
    set r | r in db.runs && !ForReply(db, r)
  }

  /** Once no call is under way, a run has been enqueued exactly once unless its creator died in
      the gap between its commit and its defer, or it is a run for a reply, which no one enqueues. */
  lemma EnqueuedExactlyOnce(steps: seq<Step>, s: State)
    requires Runs(EMPTY, steps, s)
    requires forall d :: !At(s, d)
    ensures forall r :: r in s.db.runs ==> (s.enqueued[r] == 1 <==> r !in s.lost && !ForReply(s.db, r))
    ensures s.lost == {} ==> s.enqueued == multiset(InboundRuns(s.db))
    ensures s.lost == {} && IdsApart(s) ==> s.enqueued == multiset(s.db.runs.Keys)
  {
    EmptyInv();
    RunsKeepInv(EMPTY, steps, s);
    forall r ensures r in s.db.runs ==> (s.enqueued[r] == 1 <==> r !in s.lost && !ForReply(s.db, r))
      ensures s.lost == {} ==> s.enqueued[r] == multiset(InboundRuns(s.db))[r]
    {
      assert Accounted(s, r);
      forall d ensures !Owes(s, d, r) { assert !At(s, d); }
    }
    if IdsApart(s) {
      IdsApartSuffice(steps, s);
      assert InboundRuns(s.db) == s.db.runs.Keys;
    }
  }

  /** The message found stays the only one with its provider id. */
  lemma FoundIsTheOne(s: State, d: nat, m: MessageId)
    requires Inv(s) && d in s.deliveries && s.deliveries[d].phase.Reading? && s.deliveries[d].phase.seen.Some?
    requires IsExisting(s.db, s.deliveries[d].assistant, s.deliveries[d].email.pid, Some(m))
    ensures s.deliveries[d].phase.seen == Some(m)
  {
    assert DeliveryOk(s, d) && OnceByProvider(s.db, s.deliveries[d].phase.seen.value, m);
  }

  /** A delivery whose provider id is already stored changes no message, no index entry and no
      queue entry, whatever it does next; it adds a run exactly when it commits having read none,
      which takes a reply. It may still leave an empty thread. */
  lemma DuplicateIsInert(s: State, step: Step, m: MessageId)
    requires Inv(s) && Enabled(s, step) && !step.Receive? && !step.RecordReply?
    requires IsExisting(s.db, s.deliveries[step.d].assistant, s.deliveries[step.d].email.pid, Some(m))
    requires !(s.deliveries[step.d].phase.Committed? && s.deliveries[step.d].phase.created)
    ensures var s' := Apply(s, step);
            && s'.db.messages == s.db.messages && s'.db.index == s.db.index
            && s'.enqueued == s.enqueued && s'.lost == s.lost
    ensures Apply(s, step).db.runs != s.db.runs <==>
            step.Commit? && s.deliveries[step.d].phase.queued.None?
    ensures s.db.messages[m].direction.Inbound? ==> Apply(s, step).db.runs == s.db.runs
    ensures var del := s.deliveries[step.d];
            Apply(s, step).db.threads != s.db.threads <==>
            step.ResolveStep? && Resolve(s.db, del.assistant, del.email).None?
  {
    if step.Commit? {
      assert DeliveryOk(s, step.d);
      if s.deliveries[step.d].phase.seen.Some? {
        FoundIsTheOne(s, step.d, m);
      }
    }
  }

  // ---------------------------------------------------------------- a reply's id comes back

  lemma {:induction false} RunsAppend(a: State, xs: seq<Step>, b: State, ys: seq<Step>, c: State)
    requires Runs(a, xs, b) && Runs(b, ys, c)
    ensures Runs(a, xs + ys, c)
    decreases |xs|
  {
    if xs == [] {
      assert xs + ys == ys;
    } else {
      RunsAppend(Apply(a, xs[0]), xs[1..], b, ys, c);
      assert (xs + ys)[1..] == xs[1..] + ys;
    }
  }

  lemma RunsSnoc(a: State, xs: seq<Step>, b: State, step: Step)
    requires Runs(a, xs, b) && Enabled(b, step)
    ensures Runs(a, xs + [step], Apply(b, step))
  {
    assert Runs(Apply(b, step), [step][1..], Apply(b, step));
    RunsAppend(a, xs, b, [step], Apply(b, step));
  }

  function ThreadFor(db: Tables, a: AssistantId, e: Email, t: ThreadId): ThreadId
  {
    if Resolve(db, a, e).Some? then Resolve(db, a, e).value else t
  }

  lemma CallResolves(s: State, d: nat, a: AssistantId, e: Email, surface: bool, t: ThreadId)
    returns (steps: seq<Step>, s': State)
    requires d !in s.deliveries && t !in s.db.threads
    ensures Runs(s, steps, s')
    ensures s' == s.(db := NewThread(s.db, a, e, t),
                     deliveries := s.deliveries[d := Delivery(a, e, surface, Resolved(ThreadFor(s.db, a, e, t)))])
  {
    var s1 := Apply(s, Receive(d, a, e, surface));
    s' := Apply(s1, ResolveStep(d, t));
    steps := [Receive(d, a, e, surface), ResolveStep(d, t)];
    assert Runs(s1, [ResolveStep(d, t)], s') by { assert Runs(s', [ResolveStep(d, t)][1..], s'); }
    assert steps[1..] == [ResolveStep(d, t)];
  }

  /** The tables after the persisting transaction for delivery `del`, which waits with thread `t`. */
  function Stored(db: Tables, del: Delivery, t: ThreadId, seen: Option<MessageId>, m: MessageId, r: RunId): Tables
  {
    var mid := if seen.Some? then db else AddMessage(db, m, InboundMessage(del.assistant, t, del.email));
    EnsureRun(mid, del.assistant, t, m, r)
  }

  lemma CallStores(s: State, d: nat, seen: Option<MessageId>, m: MessageId, r: RunId)
    returns (steps: seq<Step>, s': State)
    requires d in s.deliveries && s.deliveries[d].phase.Resolved?
    requires IsExisting(s.db, s.deliveries[d].assistant, s.deliveries[d].email.pid, seen)
    requires match seen
             case Some(found) => m == found && IsRunOf(s.db, m, if r in s.db.runs then Some(r) else None)
             case None =>
               var del := s.deliveries[d];
               r !in s.db.runs && MayAdd(s.db, m, InboundMessage(del.assistant, del.phase.thread, del.email))
    ensures Runs(s, steps, s')
    ensures var t := s.deliveries[d].phase.thread;
            s' == State(Stored(s.db, s.deliveries[d], t, seen, m, r),
                        s.deliveries[d := s.deliveries[d].(phase := Finished(m, r, t, seen.None?))],
                        if seen.None? then s.enqueued + multiset{r} else s.enqueued,
                        s.lost)
  {
    hide Runs;
    EmptyRun(s);
    var find := Find(d, seen, if r in s.db.runs then Some(r) else None);
    RunsSnoc(s, [], s, find);
    var s1 := Apply(s, find);
    RunsSnoc(s, [] + [find], s1, Commit(d, m, r));
    var s2 := Apply(s1, Commit(d, m, r));
    RunsSnoc(s, [] + [find] + [Commit(d, m, r)], s2, Defer(d));
    steps, s' := [] + [find] + [Commit(d, m, r)] + [Defer(d)], Apply(s2, Defer(d));
  }

  lemma EmptyRun(s: State)
    ensures Runs(s, [], s)
  {
  }

  /** A surface action that comes with the provider id of a reply adds a run for that reply and
      enqueues nothing. */
  lemma SurfaceActionWithReplyId(s: State, d: nat, e: Email, reply: MessageId, t: ThreadId, r: RunId)
    returns (steps: seq<Step>, s': State)
    requires reply in s.db.messages && s.db.messages[reply].direction.Outbound? && e.pid == s.db.messages[reply].pid
    requires forall q :: q in s.db.runs ==> s.db.runs[q].inbound != reply
    requires d !in s.deliveries && t !in s.db.threads && r !in s.db.runs
    ensures Runs(s, steps, s') && ForReply(s'.db, r) && s'.db.runs[r].inbound == reply
    ensures s'.enqueued == s.enqueued && s'.lost == s.lost && s'.db.runs.Keys == s.db.runs.Keys + {r}
    ensures s'.deliveries.Keys == s.deliveries.Keys + {d} && s'.deliveries[d].phase.Finished?
    ensures forall c :: c in s.deliveries ==> s'.deliveries[c] == s.deliveries[c]
  {
    hide Runs, Resolve, IndexInv;
    var xs, s1 := CallResolves(s, d, s.db.messages[reply].assistant, e, true, t);
    var ys, s2 := CallStores(s1, d, Some(reply), reply, r);
    RunsAppend(s, xs, s1, ys, s2);
    steps, s' := xs + ys, s2;
  }

  /** And no one ever will. */
  lemma RunForReplyIsNeverQueued(s: State, steps: seq<Step>, s': State, r: RunId)
    requires Inv(s) && Runs(s, steps, s') && ForReply(s.db, r)
    ensures ForReply(s'.db, r) && r !in s'.enqueued && r !in s'.lost
  {
    RunsKeepInv(s, steps, s');
    ForReplyKept(s, s', r);
    assert Accounted(s', r);
  }

  lemma FirstMail(a: AssistantId, e: Email) returns (steps: seq<Step>, s: State)
    ensures Runs(EMPTY, steps, s)
    ensures s == State(Stored(Tables(map["t1" := Thread(a)], map[], map[], map[]),
                              Delivery(a, e, false, Resolved("t1")), "t1", None, "m1", "r1"),
                       map[0 := Delivery(a, e, false, Finished("m1", "r1", "t1", true))], multiset{"r1"}, {})
  {
    NothingIndexed(EMPTY.db, a, e.references);
    var us, s0 := CallResolves(EMPTY, 0, a, e, false, "t1");
    var vs, s1 := CallStores(s0, 0, None, "m1", "r1");
    RunsAppend(EMPTY, us, s0, vs, s1);
    steps, s := us + vs, s1;
  }

  /** Such a state can be reached: a mail is delivered, its reply is recorded, and a surface
      action comes with the id of that reply. */
  lemma RunForReplyReachable(a: AssistantId, inbound: Email, sent: ProviderId, env: Envelope, action: Email)
    returns (steps: seq<Step>, s: State)
    requires sent != inbound.pid && env.header != inbound.header && action.pid == sent
    ensures Runs(EMPTY, steps, s) && ForReply(s.db, "r2") && s.db.runs.Keys == {"r1", "r2"}
    ensures s.enqueued == multiset{"r1"} && s.lost == {} && forall d :: !At(s, d)
  {
    hide Runs;
    var xs, s1 := FirstMail(a, inbound);
    var record := RecordReply("r1", "m2", sent, env);
    var s2 := Apply(s1, record);
    RunsSnoc(EMPTY, xs, s1, record);
    var ys, s3 := SurfaceActionWithReplyId(s2, 1, action, "m2", "t2", "r2");
    RunsAppend(EMPTY, xs + [record], s2, ys, s3);
    steps, s := xs + [record] + ys, s3;
  }

  lemma BothInsert(s: State, reply: MessageId, c: nat, d: nat, q: RunId, r: RunId) returns (steps: seq<Step>, s': State)
    requires c in s.deliveries && d in s.deliveries && c != d && q != r && q !in s.db.runs && r !in s.db.runs
    requires s.deliveries[c].phase.Resolved? && s.deliveries[d].phase.Resolved? && IsRunOf(s.db, reply, None)
    requires IsExisting(s.db, s.deliveries[c].assistant, s.deliveries[c].email.pid, Some(reply))
    requires IsExisting(s.db, s.deliveries[d].assistant, s.deliveries[d].email.pid, Some(reply))
    ensures Runs(s, steps, s') && s'.db.messages == s.db.messages
    ensures q in s'.db.runs && r in s'.db.runs && s'.db.runs[q].inbound == s'.db.runs[r].inbound == reply
  {
    hide Runs;
    EmptyRun(s);
    var find := Find(d, Some(reply), None);
    var s1 := Apply(s, find);
    RunsSnoc(s, [], s, find);
    var zs, s2 := CallStores(s1, c, Some(reply), reply, q);
    RunsAppend(s, [] + [find], s1, zs, s2);
    s' := Apply(s2, Commit(d, reply, r));
    RunsSnoc(s, [] + [find] + zs, s2, Commit(d, reply, r));
    steps := [] + [find] + zs + [Commit(d, reply, r)];
  }

  /** Two such actions at once both read no run and both insert one: nothing but the reading
      keeps runs apart. */
  lemma TwoRunsForReply(s: State, e: Email, reply: MessageId, c: nat, d: nat, t: ThreadId, u: ThreadId,
                        q: RunId, r: RunId)
    returns (steps: seq<Step>, s': State)
    requires reply in s.db.messages && s.db.messages[reply].direction.Outbound? && e.pid == s.db.messages[reply].pid
    requires IsRunOf(s.db, reply, None) && c != d && t != u && q != r
    requires c !in s.deliveries && d !in s.deliveries && t !in s.db.threads && u !in s.db.threads
    requires q !in s.db.runs && r !in s.db.runs
    ensures Runs(s, steps, s') && ForReply(s'.db, q) && ForReply(s'.db, r)
    ensures s'.db.runs[q].inbound == s'.db.runs[r].inbound == reply
  {
    hide Runs;
    var a := s.db.messages[reply].assistant;
    var xs, s1 := CallResolves(s, c, a, e, true, t);
    var ys, s2 := CallResolves(s1, d, a, e, true, u);
    RunsAppend(s, xs, s1, ys, s2);
    var zs, s3 := BothInsert(s2, reply, c, d, q, r);
    RunsAppend(s, xs + ys, s2, zs, s3);
    steps, s' := xs + ys + zs, s3;
  }

  /** From then on the query for the message's run raises: no call with that id gets any further. */
  lemma TwoRunsStopCalls(s: State, steps: seq<Step>, s': State, m: MessageId, q: RunId, r: RunId, step: Step)
    requires Inv(s) && Runs(s, steps, s') && Enabled(s', step) && m in s.db.messages
    requires q != r && q in s.db.runs && r in s.db.runs && s.db.runs[q].inbound == s.db.runs[r].inbound == m
    ensures step.Find? || step.SurfaceHit? ==> !Carries(s', step.d, s.db.messages[m])
  {
    RunsKeepInv(s, steps, s');
    if step.SurfaceHit? { assert OnceByProvider(s'.db, step.message, m); }
    if step.Find? && step.seen.Some? { assert OnceByProvider(s'.db, step.seen.value, m); }
  }

  lemma {:induction false} NothingIndexed(db: Tables, a: AssistantId, refs: seq<Header>)
    requires db.index == map[]
    ensures LastIndexed(db, a, refs).None?
  {
    if refs != [] {
      NothingIndexed(db, a, refs[..|refs| - 1]);
    }
  }

  // ---------------------------------------------------------------- what a duplicate reports

  /** Nothing but delivery `d` itself knows the thread `t`. */
  ghost predicate Private(s: State, d: nat, t: ThreadId)
  {
    && t in s.db.threads
    && (forall m :: m in s.db.messages ==> s.db.messages[m].thread != t)
    && (forall k :: k in s.db.index ==> s.db.index[k] != t)
    && (forall r :: r in s.db.runs ==> s.db.runs[r].thread != t)
    && (forall c :: c in s.deliveries && c != d ==> !WaitsWith(s.deliveries[c].phase, t))
  }

  predicate WaitsWith(p: Phase, t: ThreadId)
  {
    (p.Resolved? || p.Reading?) && p.thread == t
  }

  ghost predicate Elsewhere(s: State, m: MessageId, t: ThreadId)
  {
    m in s.db.messages && s.db.messages[m].thread != t
  }

  /** Delivery `d` has resolved to `t`; if it made that thread, no message that it finds is there. */
  ghost predicate Follows(s: State, d: nat, t: ThreadId, made: bool)
  {
    d in s.deliveries &&
    match s.deliveries[d].phase
    case Resolved(u) => u == t && (made ==> Private(s, d, t))
    case Reading(u, seen, _) =>
      u == t && (made ==> Private(s, d, t)) && (made && seen.Some? ==> Elsewhere(s, seen.value, t))
    case Committed(m, _, u, created) => u == t && (made && !created ==> Elsewhere(s, m, t))
    case Finished(m, _, u, created) => u == t && (made && !created ==> Elsewhere(s, m, t))
    case Dead => true
    case Received => false
  }

  lemma ResolvedValueIndexed(db: Tables, a: AssistantId, e: Email)
    ensures Resolve(db, a, e).Some? ==> exists k :: k in db.index && db.index[k] == Resolve(db, a, e).value
  {
    var r := Resolve(db, a, e);
    if r.Some? && LastIndexed(db, a, e.references) == r {
      LastIndexedIs(db, a, e.references, r.value);
    }
  }

  lemma PrivateKept(s: State, step: Step, d: nat, t: ThreadId)
    requires Enabled(s, step) && Private(s, d, t) && d in s.deliveries && !s.deliveries[d].phase.Received?
    requires step.Commit? ==> step.d != d
    ensures Private(Apply(s, step), d, t)
  {
    if step.ResolveStep? {
      ResolvedValueIndexed(s.db, s.deliveries[step.d].assistant, s.deliveries[step.d].email);
    }
  }

  lemma FollowsKept(s: State, step: Step, d: nat, t: ThreadId, made: bool)
    requires Inv(s) && Enabled(s, step) && Follows(s, d, t, made)
    ensures Follows(Apply(s, step), d, t, made)
  {
    StepKeepsInv(s, step);
    if made && Private(s, d, t) && !(step.Commit? && step.d == d) {
      PrivateKept(s, step, d, t);
    }
  }

  lemma {:induction false} RunsFollow(s: State, steps: seq<Step>, s': State, d: nat, t: ThreadId, made: bool)
    requires Inv(s) && Runs(s, steps, s') && Follows(s, d, t, made)
    ensures Follows(s', d, t, made)
    decreases |steps|
  {
    if steps != [] {
      FollowsKept(s, steps[0], d, t, made);
      StepKeepsInv(s, steps[0]);
      RunsFollow(Apply(s, steps[0]), steps[1..], s', d, t, made);
    }
  }

  /** Whatever runs between resolving and answering: a call that turns out to be a repetition
      reports the thread of the message it found exactly when its headers led there when it
      resolved. */
  lemma DuplicateReportsItsThread(s: State, d: nat, t: ThreadId, steps: seq<Step>, s': State)
    requires Inv(s) && Enabled(s, ResolveStep(d, t)) && Runs(Apply(s, ResolveStep(d, t)), steps, s')
    requires d in s'.deliveries && s'.deliveries[d].phase.Finished? && !s'.deliveries[d].phase.created
    ensures var p, del := s'.deliveries[d].phase, s.deliveries[d];
            && p.message in s'.db.messages
            && (p.thread == s'.db.messages[p.message].thread <==>
                Resolve(s.db, del.assistant, del.email) == Some(s'.db.messages[p.message].thread))
  {
    var s1 := Apply(s, ResolveStep(d, t));
    var found := Resolve(s.db, s.deliveries[d].assistant, s.deliveries[d].email);
    StepKeepsInv(s, ResolveStep(d, t));
    if found.None? { NewThreadPrivate(s, d, t); }
    RunsFollow(s1, steps, s', d, s1.deliveries[d].phase.thread, found.None?);
    RunsKeepInv(s1, steps, s');
    assert DeliveryOk(s', d);
  }

  lemma NewThreadPrivate(s: State, d: nat, t: ThreadId)
    requires Inv(s) && Enabled(s, ResolveStep(d, t))
    requires Resolve(s.db, s.deliveries[d].assistant, s.deliveries[d].email).None?
    ensures Private(Apply(s, ResolveStep(d, t)), d, t)
  {
    forall m | m in s.db.messages ensures s.db.messages[m].thread != t { assert MessageOk(s.db, m); }
    forall k | k in s.db.index ensures s.db.index[k] != t { assert Backed(s.db, k); }
    forall r | r in s.db.runs ensures s.db.runs[r].thread != t { assert RunOk(s.db, r); }
    forall c | c in s.deliveries ensures !WaitsWith(s.deliveries[c].phase, t) { assert DeliveryOk(s, c); }
  }

  /** One way not to: a mail without threading headers is always given a new, empty thread. */
  lemma DuplicateRootReportsNewThread(s: State, d: nat, t: ThreadId, m: MessageId)
    requires Inv(s) && Enabled(s, ResolveStep(d, t))
    requires s.deliveries[d].email.inReplyTo.None? && s.deliveries[d].email.references == []
    requires IsExisting(s.db, s.deliveries[d].assistant, s.deliveries[d].email.pid, Some(m))
    ensures var s' := Apply(s, ResolveStep(d, t));
            && s'.deliveries[d].phase == Resolved(t) && s'.db.messages[m].thread != t
            && forall n :: n in s'.db.messages ==> s'.db.messages[n].thread != t
  {
    forall n | n in s.db.messages ensures s.db.messages[n].thread != t { assert MessageOk(s.db, n); }
  }

  /** A second: a mail stored before its parent has a thread of its own, but repeated after its
      parent was stored it reports the parent's. */
  lemma DuplicateChildReportsParentThread(s: State, d: nat, t: ThreadId, m: MessageId, parent: MessageId)
    requires Inv(s) && Enabled(s, ResolveStep(d, t))
    requires IsExisting(s.db, s.deliveries[d].assistant, s.deliveries[d].email.pid, Some(m))
    requires parent in s.db.messages && s.db.messages[parent].assistant == s.deliveries[d].assistant
    requires s.db.messages[parent].header != "" && s.deliveries[d].email.inReplyTo == Some(s.db.messages[parent].header)
    requires s.db.messages[parent].thread != s.db.messages[m].thread
    ensures var s' := Apply(s, ResolveStep(d, t));
            s'.deliveries[d].phase.thread == s.db.messages[parent].thread != s.db.messages[m].thread
  {
    assert Indexed(s.db, parent);
  }

  /** A third: two deliveries of one mail resolve before either is stored. Each makes a thread of
      its own, and the one that comes second reports the one that stays empty. */
  lemma ConcurrentDuplicateReportsOwnThread(a: AssistantId, e: Email) returns (steps: seq<Step>, s: State)
    ensures Runs(EMPTY, steps, s)
    ensures 1 in s.deliveries && s.deliveries[1].phase == Finished("m1", "r1", "t2", false)
    ensures "m1" in s.db.messages && s.db.messages["m1"].thread == "t1"
  {
    hide Runs;
    NothingIndexed(EMPTY.db, a, e.references);
    var us, s1 := CallResolves(EMPTY, 0, a, e, false, "t1");
    NothingIndexed(s1.db, a, e.references);
    var vs, s2 := CallResolves(s1, 1, a, e, false, "t2");
    RunsAppend(EMPTY, us, s1, vs, s2);
    var ws, s3 := CallStores(s2, 0, None, "m1", "r1");
    RunsAppend(EMPTY, us + vs, s2, ws, s3);
    var xs, s4 := CallStores(s3, 1, Some("m1"), "m1", "r1");
    RunsAppend(EMPTY, us + vs + ws, s3, xs, s4);
    steps, s := us + vs + ws + xs, s4;
  }

  /** Any answer to any stored message, or to a failure notice for one, is routed to that
      message's thread in every later state of every run. */
  lemma ConversationsStayTogether(s: State, steps: seq<Step>, s': State, m: MessageId, tail: seq<Header>, e: Email)
    requires Inv(s) && Runs(s, steps, s') && m in s.db.messages
    requires e.references == s.db.messages[m].references + [s.db.messages[m].header] + tail
    requires forall i :: 0 <= i < |tail| ==> InThreadOrAbsent(s'.db, s.db.messages[m], tail[i])
    requires e.inReplyTo.Some? ==> InThreadOrAbsent(s'.db, s.db.messages[m], e.inReplyTo.value)
    ensures Resolve(s'.db, s.db.messages[m].assistant, e) == Some(s.db.messages[m].thread)
  {
    RunsKeepInv(s, steps, s');
    assert Indexed(s'.db, m);
    ChainStaysInThread(s'.db, m, tail, e);
  }
}
