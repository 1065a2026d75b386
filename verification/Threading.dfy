// Thread resolution over the message index, and why a conversation stays in its thread.
module Threading {
  import opened Options

  type AssistantId = string
  type Header = string
  type ThreadId = string
  type MessageId = string
  type RunId = string

  /** Provider message ids: chosen by the mail provider for what it delivers and for what it
      sends, and by the caller for a surface action. */
  type ProviderId = string

  datatype Email = Email(pid: ProviderId, header: Header, inReplyTo: Option<Header>, references: seq<Header>,
                         body: string)

  datatype Direction = Inbound | Outbound
  datatype Thread = Thread(assistant: AssistantId)
  datatype Message = Message(assistant: AssistantId, thread: ThreadId, direction: Direction, pid: ProviderId,
                             header: Header, references: seq<Header>, body: string)
  datatype Run = Run(assistant: AssistantId, thread: ThreadId, inbound: MessageId)

  datatype Key = Key(assistant: AssistantId, header: Header)

  datatype Tables = Tables(
    threads: map<ThreadId, Thread>,
    messages: map<MessageId, Message>,
    index: map<Key, ThreadId>,
    runs: map<RunId, Run>)

  function KeyOf(m: Message): Key
  {
    Key(m.assistant, m.header)
  }

  /** The message's header leads to the message's thread. */
  ghost predicate Indexed(db: Tables, m: MessageId)
  {
    m in db.messages ==>
      KeyOf(db.messages[m]) in db.index && db.index[KeyOf(db.messages[m])] == db.messages[m].thread
  }

  /** The entry's thread belongs to the entry's assistant and holds a message with that header. */
  ghost predicate Backed(db: Tables, k: Key)
  {
    k in db.index ==>
      && db.index[k] in db.threads && db.threads[db.index[k]].assistant == k.assistant
      && exists m :: m in db.messages && KeyOf(db.messages[m]) == k && db.messages[m].thread == db.index[k]
  }

  ghost predicate IndexInv(db: Tables)
  {
    (forall m :: Indexed(db, m)) && (forall k :: Backed(db, k))
  }

  // ---------------------------------------------------------------- resolution

  /** The last reference that is indexed for this assistant. */
  function LastIndexed(db: Tables, a: AssistantId, refs: seq<Header>): Option<ThreadId>
  {
    if refs == [] then None
    else if Key(a, refs[|refs| - 1]) in db.index then Some(db.index[Key(a, refs[|refs| - 1])])
    else LastIndexed(db, a, refs[..|refs| - 1])
  }

  function Resolve(db: Tables, a: AssistantId, e: Email): Option<ThreadId>
  {
    if e.inReplyTo.Some? && e.inReplyTo.value != "" && Key(a, e.inReplyTo.value) in db.index
    then Some(db.index[Key(a, e.inReplyTo.value)])
    else LastIndexed(db, a, e.references)
  }

  /** The In-Reply-To lookup, then the References scan from last to first. */
  method ResolveThread(db: Tables, a: AssistantId, e: Email) returns (t: Option<ThreadId>)
    ensures t == Resolve(db, a, e)
    ensures t.None? ==> forall i :: 0 <= i < |e.references| ==> Key(a, e.references[i]) !in db.index
    ensures var known := e.inReplyTo.Some? && e.inReplyTo.value != "" && Key(a, e.inReplyTo.value) in db.index;
            && (known ==> t == Some(db.index[Key(a, e.inReplyTo.value)]))
            && (!known ==>
                  forall i :: 0 <= i < |e.references| && Key(a, e.references[i]) in db.index
                              && (forall j :: i < j < |e.references| ==> Key(a, e.references[j]) !in db.index) ==>
                    t == Some(db.index[Key(a, e.references[i])]))
  {
    if e.inReplyTo.Some? && e.inReplyTo.value != "" {
      var k := Key(a, e.inReplyTo.value);
      if k in db.index {
        return Some(db.index[k]);
      }
    }
    var i := |e.references|;
    assert e.references[..i] == e.references;
    while i > 0
      invariant 0 <= i <= |e.references|
      invariant Resolve(db, a, e) == LastIndexed(db, a, e.references[..i])
      invariant forall j :: i <= j < |e.references| ==> Key(a, e.references[j]) !in db.index
    {
      i := i - 1;
      var k := Key(a, e.references[i]);
      assert e.references[..i + 1][..i] == e.references[..i];
      if k in db.index {
        return Some(db.index[k]);
      }
    }
    return None;
  }

  /** The scan finds a reference exactly when it is indexed and no later one is. */
  lemma {:induction false} LastIndexedIs(db: Tables, a: AssistantId, refs: seq<Header>, t: ThreadId)
    ensures LastIndexed(db, a, refs) == Some(t) <==>
            exists i :: 0 <= i < |refs| && Key(a, refs[i]) in db.index && db.index[Key(a, refs[i])] == t
                        && forall j :: i < j < |refs| ==> Key(a, refs[j]) !in db.index
  {
    if refs != [] {
      var n := |refs| - 1;
      LastIndexedIs(db, a, refs[..n], t);
      if Key(a, refs[n]) !in db.index {
        if i :| 0 <= i < n && Key(a, refs[..n][i]) in db.index && db.index[Key(a, refs[..n][i])] == t
                && forall j :: i < j < n ==> Key(a, refs[..n][j]) !in db.index
        {
          assert refs[i] == refs[..n][i];
          assert forall j :: i < j < n ==> refs[j] == refs[..n][j];
        }
        if i :| 0 <= i < |refs| && Key(a, refs[i]) in db.index && db.index[Key(a, refs[i])] == t
                && forall j :: i < j < |refs| ==> Key(a, refs[j]) !in db.index
        {
          assert i < n && refs[i] == refs[..n][i];
          assert forall j :: i < j < n ==> refs[..n][j] == refs[j];
        }
      }
    }
  }

  // ---------------------------------------------------------------- envelopes

  /** The threading headers of anything sent in answer to an inbound: a reply, the budget
      reply, or the failure notice to the end user. */
  datatype Envelope = Envelope(header: Header, inReplyTo: Header, references: seq<Header>, body: string)

  function AnswerTo(header: Header, references: seq<Header>, newHeader: Header, body: string): Envelope
  {
    Envelope(newHeader, header, references + [header], body)
  }

  /** Anything sent in answer to a mail names it, and keeps the references it came with. */
  lemma AnswerToAnswers(header: Header, references: seq<Header>, newHeader: Header, body: string)
    ensures var env := AnswerTo(header, references, newHeader, body);
            && env.header == newHeader && env.body == body
            && env.inReplyTo == header && env.references == references + [header]
            && forall pid ::
                 Answers(Email(pid, env.header, Some(env.inReplyTo), env.references, env.body), header, references)
  {
  }

  /** A mail whose headers follow section 3.6.4 of RFC 5322 for a parent with References. */
  ghost predicate Answers(e: Email, parentHeader: Header, parentReferences: seq<Header>)
  {
    e.inReplyTo == Some(parentHeader) && e.references == parentReferences + [parentHeader]
  }

  /** Any answer to a stored message goes to that message's thread. */
  lemma AnswerStaysInThread(db: Tables, m: MessageId, e: Email)
    requires m in db.messages && Indexed(db, m)
    requires Answers(e, db.messages[m].header, db.messages[m].references)
    ensures Resolve(db, db.messages[m].assistant, e) == Some(db.messages[m].thread)
  {
  }

  /** A failure notice is never stored, yet an answer to it still goes to the thread of the
      inbound that failed: the scan falls through to the inbound's own Message-ID. */
  lemma AnswerToNoticeStaysInThread(db: Tables, m: MessageId, notice: Envelope, e: Email)
    requires m in db.messages && Indexed(db, m)
    requires notice == AnswerTo(db.messages[m].header, db.messages[m].references, notice.header, notice.body)
    requires Key(db.messages[m].assistant, notice.header) !in db.index
    requires Answers(e, notice.header, notice.references)
    ensures Resolve(db, db.messages[m].assistant, e) == Some(db.messages[m].thread)
  {
    var a := db.messages[m].assistant;
    var refs := notice.references;
    assert e.references[..|e.references| - 1] == refs;
    assert refs[|refs| - 1] == db.messages[m].header;
    assert LastIndexed(db, a, refs) == Some(db.messages[m].thread);
  }

  /** The same however many unstored notices and answers lie between: as long as the stored
      message is named and nothing named after it is stored elsewhere, the thread is kept. */
  lemma ChainStaysInThread(db: Tables, m: MessageId, tail: seq<Header>, e: Email)
    requires m in db.messages && Indexed(db, m)
    requires e.references == db.messages[m].references + [db.messages[m].header] + tail
    requires forall i :: 0 <= i < |tail| ==> InThreadOrAbsent(db, db.messages[m], tail[i])
    requires e.inReplyTo.Some? ==> InThreadOrAbsent(db, db.messages[m], e.inReplyTo.value)
    ensures Resolve(db, db.messages[m].assistant, e) == Some(db.messages[m].thread)
  {
    var base := db.messages[m].references + [db.messages[m].header];
    ScanTail(db, db.messages[m], base, tail);
  }

  ghost predicate InThreadOrAbsent(db: Tables, msg: Message, h: Header)
  {
    Key(msg.assistant, h) in db.index ==> db.index[Key(msg.assistant, h)] == msg.thread
  }

  lemma {:induction false} ScanTail(db: Tables, msg: Message, base: seq<Header>, tail: seq<Header>)
    requires base != [] && base[|base| - 1] == msg.header
    requires KeyOf(msg) in db.index && db.index[KeyOf(msg)] == msg.thread
    requires forall i :: 0 <= i < |tail| ==> InThreadOrAbsent(db, msg, tail[i])
    ensures LastIndexed(db, msg.assistant, base + tail) == Some(msg.thread)
  {
    var refs := base + tail;
    if tail == [] {
      assert refs == base;
    } else {
      var n := |tail| - 1;
      assert refs[|refs| - 1] == tail[n] && refs[..|refs| - 1] == base + tail[..n];
      assert InThreadOrAbsent(db, msg, tail[n]);
      ScanTail(db, msg, base, tail[..n]);
    }
  }

  /** Resolution never crosses assistants. */
  lemma ResolveKeepsAssistant(db: Tables, a: AssistantId, e: Email)
    requires IndexInv(db)
    ensures Resolve(db, a, e).Some? ==>
              Resolve(db, a, e).value in db.threads && db.threads[Resolve(db, a, e).value].assistant == a
  {
    var r := Resolve(db, a, e);
    if r.Some? {
      if LastIndexed(db, a, e.references) == r {
        LastIndexedIs(db, a, e.references, r.value);
      }
      var h :| Key(a, h) in db.index && db.index[Key(a, h)] == r.value;
      assert Backed(db, Key(a, h));
    }
  }
}
