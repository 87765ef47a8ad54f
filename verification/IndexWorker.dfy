/** The workers of the indexing pipeline (worker/manager.go) as program counters over the shared
    store.  A step of a worker is one statement or one external call; between any two steps anything
    else may happen, messages are delivered any number of times, leases run out, and a worker may
    stop for good.  Every call may fail before or after it took effect. */
module IndexWorker {
  import opened Options
  import opened Status
  import opened Chunker
  import opened IndexStore
  import opened IndexInvariant

  /** How run() classifies an error: shouldAutoRetry and errors.Is(err, ErrPublish). */
  datatype Failure = Retryable | Publishing | Permanent

  /** Whether a call took effect and whether its caller was told so. */
  datatype Transport = Arrives | LostBefore | LostAfter

  datatype Reply = Reply(transport: Transport, failure: Failure)

  datatype Pc =
    | AtClaim
    | AtRead
    | ParseMark(file: string) | ParseFile(file: string)
    | ParseLog(parsed: ParsedText) | ParseComplete(parsed: ParsedText)
    | ChunkMark(content: Option<ParsedText>) | ChunkBuild(content: Option<ParsedText>)
    | ChunkReplace(rows: seq<ChunkRow>) | ChunkDone
    | EnqueueNext
    | EmbedMark | EmbedList | EmbedVectors(rows: seq<ChunkRow>) | EmbedUpsert(rows: seq<ChunkRow>) | EmbedDone
    | DropVectors | VerifyVectors | RemoveObject | DeleteDone
    | Finish
    | Schedule(failure: Failure) | ResetDocument | FailTaskFirst | FailDocument | FailTask
    | Stopped

  /** A handler goroutine working on one delivered message; `owner` is read from the document. */
  datatype Worker = Worker(subject: TaskKind, message: Message, owner: UserId, pc: Pc)

  // ----- One step of a handler -----

  /** The effect of a guarded statement, and where the handler goes on. */
  function Settle(s: Store, o: Outcome, reply: Reply, next: Pc, onError: Pc): (Store, Pc) {
    var after := if o.Applied? then o.store else s;
    match reply.transport
    case LostBefore => (s, onError)
    case Arrives => (after, if o.Applied? then next else onError)
    case LostAfter => (after, onError)
  }

  function Recover(reply: Reply): Pc {
    Schedule(reply.failure)
  }

  /** What each handler does with the document it has read. */
  function AfterRead(kind: TaskKind, doc: Document): Pc {
    match kind
    case ParseTask =>
      if AtOrBeyond(doc.status, Parsed) then EnqueueNext
      else if doc.status != Parsing then ParseMark(doc.file) else ParseFile(doc.file)
    case ChunkTask =>
      if AtOrBeyond(doc.status, Chunked) then EnqueueNext
      else if doc.status != Chunking then ChunkMark(doc.content) else ChunkBuild(doc.content)
    case EmbedTask =>
      if AtOrBeyond(doc.status, Indexed) then Finish
      else if doc.status != Embedding then EmbedMark else EmbedList
    case DeleteTask => DropVectors
  }

  function NextKind(kind: TaskKind): TaskKind {
    if kind == ParseTask then ChunkTask else EmbedTask
  }

  function NextTask(w: Worker): Task {
    Task(w.message.document, w.owner, NextKind(w.subject), Unset, Pending, 0, None)
  }

  /** A document that was never parsed reads back as empty text without segments. */
  function StoredText(content: Option<ParsedText>): ParsedText {
    if content.Some? then content.value else ParsedText("", Segments([]))
  }

  function FailedStatus(kind: TaskKind): DocumentStatus {
    if kind == DeleteTask then DeleteFailed else Failed
  }

  function HandlerStep(env: Env, s: Store, w: Worker, reply: Reply): (Store, Pc) {
    var d, id := w.message.document, w.message.task;
    var ok := reply.transport == Arrives;
    match w.pc
    case AtClaim => Settle(s, Claim(s, id, env.lease), reply, AtRead, Stopped)
    case AtRead =>
      if !ok then (s, Recover(reply))
      else if !IsLive(s, d) then (s, if w.subject == DeleteTask then Finish else Recover(reply))
      else (s, AfterRead(w.subject, s.documents[d]))
    case ParseMark(file) => Settle(s, UpdateStatus(s, d, Parsing), reply, ParseFile(file), Recover(reply))
    case ParseFile(file) => (s, if ok then ParseLog(env.parse(file, w.message.mode)) else Recover(reply))
    case ParseLog(parsed) => (s, if ok then ParseComplete(parsed) else Recover(reply))
    case ParseComplete(parsed) => Settle(s, CompleteParse(s, d, parsed), reply, EnqueueNext, Recover(reply))
    case ChunkMark(content) => Settle(s, UpdateStatus(s, d, Chunking), reply, ChunkBuild(content), Recover(reply))
    case ChunkBuild(content) =>
      var rows := env.build(d, StoredText(content));
      (s, if rows.Some? then ChunkReplace(rows.value) else Recover(reply))
    case ChunkReplace(rows) => Settle(s, Applied(ReplaceByDocument(s, rows)), reply, ChunkDone, Recover(reply))
    case ChunkDone => Settle(s, UpdateStatus(s, d, Chunked), reply, EnqueueNext, Recover(reply))
    case EnqueueNext =>
      Settle(s, Applied(CreateTask(s, Derived(id, NextKind(w.subject)), NextTask(w))), reply, Finish, Recover(reply))
    case EmbedMark => Settle(s, UpdateStatus(s, d, Embedding), reply, EmbedList, Recover(reply))
    case EmbedList =>
      var rows := ListByDocument(s, d);
      (s, if ok && rows != [] then EmbedVectors(rows) else Recover(reply))
    case EmbedVectors(rows) => (s, if ok then EmbedUpsert(rows) else Recover(reply))
    case EmbedUpsert(rows) => Settle(s, Applied(UpsertChunks(s, rows)), reply, EmbedDone, Recover(reply))
    case EmbedDone => Settle(s, UpdateStatus(s, d, Indexed), reply, Finish, Recover(reply))
    case DropVectors => Settle(s, Applied(DeleteVectorsOf(s, d)), reply, VerifyVectors, Recover(reply))
    case VerifyVectors => (s, if ok && !HasVectors(s, d) then RemoveObject else Recover(reply))
    case RemoveObject => (s, if ok then DeleteDone else Recover(reply))
    case DeleteDone => Settle(s, CompleteDelete(s, d), reply, Finish, Recover(reply))
    case Finish => Settle(s, UpdateTaskStatus(s, id, Succeeded), reply, Stopped, Stopped)
    case Schedule(failure) =>
      if failure == Permanent then (s, FailDocument)
      else
        var next := if w.subject != DeleteTask && failure != Publishing then ResetDocument else Stopped;
        Settle(s, ScheduleRetry(s, id), reply, next, FailDocument)
    case ResetDocument => Settle(s, ResetStatusForRetry(s, d, RetryTarget(w.subject)), reply, Stopped, FailTaskFirst)
    case FailTaskFirst => Settle(s, UpdateTaskStatus(s, id, Errored), reply, FailDocument, FailDocument)
    case FailDocument => Settle(s, UpdateStatus(s, d, FailedStatus(w.subject)), reply, FailTask, Stopped)
    case FailTask => Settle(s, UpdateTaskStatus(s, id, Errored), reply, Stopped, Stopped)
    case Stopped => (s, Stopped)
  }

  /** The document's owner is remembered when it is read. */
  function StepWorker(env: Env, s: Store, w: Worker, reply: Reply): (Store, Worker) {
    var (s', pc) := HandlerStep(env, s, w, reply);
    var owner := if w.pc.AtRead? && IsLive(s, w.message.document)
                 then s.documents[w.message.document].user else w.owner;
    (s', w.(pc := pc, owner := owner))
  }

  // ----- What a worker knows -----

  ghost predicate Matches(s: Store, subject: TaskKind, message: Message) {
    && message.task in s.tasks && s.tasks[message.task].kind == subject
    && message == Payload(message.task, s.tasks[message.task])
    && message.document in s.documents
  }

  ghost predicate HasRows(s: Store, d: DocumentId)
    requires d in s.documents
  {
    s.documents[d].deleted || Rows(s, d) != []
  }

  /** The handler has read a live document and has not failed since. */
  predicate Handling(pc: Pc) {
    !(pc.AtClaim? || pc.AtRead? || pc.Finish? || pc.Schedule? || pc.ResetDocument? || pc.FailTaskFirst?
      || pc.FailDocument? || pc.FailTask? || pc.Stopped?)
  }

  /** What holds at each program counter, in terms that no step of anyone else can undo. */
  ghost predicate PcFact(env: Env, s: Store, w: Worker)
    requires Matches(s, w.subject, w.message)
  {
    var d := w.message.document;
    var doc := s.documents[d];
    match w.pc
    case ParseMark(file) => w.subject == ParseTask && file == doc.file
    case ParseFile(file) => w.subject == ParseTask && file == doc.file
    case ParseLog(parsed) => w.subject == ParseTask && parsed == env.parse(doc.file, w.message.mode)
    case ParseComplete(parsed) => w.subject == ParseTask && parsed == env.parse(doc.file, w.message.mode)
    case ChunkMark(content) => w.subject == ChunkTask && content.Some? && doc.content == content
    case ChunkBuild(content) => w.subject == ChunkTask && content.Some? && doc.content == content
    case ChunkReplace(rows) =>
      w.subject == ChunkTask && doc.content.Some? && env.build(d, doc.content.value) == Some(rows)
    case ChunkDone => w.subject == ChunkTask && HasRows(s, d)
    case EnqueueNext => (w.subject == ParseTask && doc.content.Some?) || (w.subject == ChunkTask && HasRows(s, d))
    case EmbedMark => w.subject == EmbedTask
    case EmbedList => w.subject == EmbedTask
    case EmbedVectors(rows) => w.subject == EmbedTask && Listed(s, d, rows)
    case EmbedUpsert(rows) => w.subject == EmbedTask && Listed(s, d, rows)
    case EmbedDone => w.subject == EmbedTask && Embedded(s, d)
    case DropVectors => w.subject == DeleteTask
    case VerifyVectors => w.subject == DeleteTask
    case RemoveObject => w.subject == DeleteTask
    case DeleteDone => w.subject == DeleteTask
    case Finish => StageDone(s, w.message.task, w.subject, d)
    case _ => true
  }

  ghost predicate Knows(env: Env, s: Store, w: Worker) {
    && Matches(s, w.subject, w.message)
    && (Handling(w.pc) ==> w.owner == s.documents[w.message.document].user)
    && PcFact(env, s, w)
  }

  /** Rows listed earlier are still the stored ones, unless the document has gone. */
  ghost predicate Listed(s: Store, d: DocumentId, rows: seq<ChunkRow>)
    requires d in s.documents
  {
    rows != [] && (forall r :: r in rows ==> r.id.document == d) && (s.documents[d].deleted || rows == Rows(s, d))
  }

  /** Every stored row has its vector, unless the document is on its way out. */
  ghost predicate Embedded(s: Store, d: DocumentId)
    requires d in s.documents
  {
    && HasRows(s, d)
    && (s.documents[d].deleted || InDeletion(s.documents[d].status) || IdsOf(Rows(s, d)) <= s.vectors)
  }

  lemma EvolvesReflexive(s: Store)
    ensures Evolves(s, s)
  {
  }

  lemma IdsStay(s: Store, s': Store, d: DocumentId)
    requires d in s.documents && d in s'.documents && DocumentEvolves(s, s', d) && Embedded(s, d)
    requires forall r :: r in Rows(s, d) ==> r.id.document == d
    ensures Embedded(s', d)
  {
    if !s'.documents[d].deleted && !InDeletion(s'.documents[d].status) {
      forall v | v in IdsOf(Rows(s', d))
        ensures v in s'.vectors
      {
        var r :| r in Rows(s, d) && r.id == v;
      }
    }
  }

  lemma MatchStays(s: Store, s': Store, subject: TaskKind, message: Message)
    requires Evolves(s, s') && Matches(s, subject, message)
    ensures Matches(s', subject, message)
    ensures DocumentEvolves(s, s', message.document)
  {
    assert DocumentEvolves(s, s', message.document) && TaskEvolves(s, s', message.task);
  }

  lemma ListedStays(s: Store, s': Store, d: DocumentId, rows: seq<ChunkRow>)
    requires d in s.documents && d in s'.documents && DocumentEvolves(s, s', d) && Listed(s, d, rows)
    ensures Listed(s', d, rows)
  {
  }

  lemma LateFactStays(env: Env, s: Store, s': Store, w: Worker)
    requires Invariant(env, s) && Evolves(s, s') && Matches(s, w.subject, w.message)
             && Matches(s', w.subject, w.message)
    requires w.pc.EmbedVectors? || w.pc.EmbedUpsert? || w.pc.EmbedDone? || w.pc.Finish?
    requires PcFact(env, s, w)
    ensures PcFact(env, s', w)
  {
    var d := w.message.document;
    assert DocumentEvolves(s, s', d);
    match w.pc
    case EmbedVectors(rows) => ListedStays(s, s', d, rows);
    case EmbedUpsert(rows) => ListedStays(s, s', d, rows);
    case EmbedDone =>
      assert DocumentBacked(env, s, d);
      IdsStay(s, s', d);
    case Finish => StageStaysDone(s, s', w.message.task, w.subject, d);
  }

  /** Whatever others do, a worker's knowledge stays true. */
  lemma KnowledgeIsStable(env: Env, s: Store, s': Store, w: Worker)
    requires Invariant(env, s) && Evolves(s, s') && Knows(env, s, w)
    ensures Knows(env, s', w)
  {
    MatchStays(s, s', w.subject, w.message);
    if w.pc.EmbedVectors? || w.pc.EmbedUpsert? || w.pc.EmbedDone? || w.pc.Finish? {
      LateFactStays(env, s, s', w);
    }
  }

  // ----- Every step keeps the invariant -----

  ghost predicate StepKeeps(env: Env, s: Store, w: Worker, reply: Reply) {
    var (s', w') := StepWorker(env, s, w, reply);
    Invariant(env, s') && Evolves(s, s') && Knows(env, s', w')
  }

  /** A guarded statement keeps the invariant whichever way the call goes, if it does when it applies. */
  lemma SettleKeeps(env: Env, s: Store, o: Outcome, reply: Reply, next: Pc, onError: Pc)
    requires Invariant(env, s)
    requires o.Applied? ==> Invariant(env, o.store) && Evolves(s, o.store)
    ensures var (s', pc) := Settle(s, o, reply, next, onError);
            Invariant(env, s') && Evolves(s, s') && (pc == onError || (pc == next && o.Applied? && s' == o.store))
  {
    EvolvesReflexive(s);
  }

  /** A step that runs one guarded statement and goes on to `next` if it applied. */
  lemma GuardedStep(env: Env, s: Store, w: Worker, reply: Reply, o: Outcome, next: Pc)
    requires Invariant(env, s) && Knows(env, s, w) && Handling(w.pc)
    requires HandlerStep(env, s, w, reply) == Settle(s, o, reply, next, Recover(reply))
    requires o.Applied? ==> Invariant(env, o.store) && Evolves(s, o.store)
    requires o.Applied? ==> Matches(o.store, w.subject, w.message) && PcFact(env, o.store, w.(pc := next))
    ensures StepKeeps(env, s, w, reply)
  {
    SettleKeeps(env, s, o, reply, next, Recover(reply));
    var (s', w') := StepWorker(env, s, w, reply);
    assert w'.owner == w.owner && w' == w.(pc := w'.pc);
    MatchStays(s, s', w.subject, w.message);
  }

  /** A step that changes nothing stored. */
  lemma PlainStep(env: Env, s: Store, w: Worker, reply: Reply)
    requires Invariant(env, s) && Knows(env, s, w) && !w.pc.AtRead?
    requires HandlerStep(env, s, w, reply).0 == s
    requires Handling(HandlerStep(env, s, w, reply).1) ==> Handling(w.pc)
    requires PcFact(env, s, w.(pc := HandlerStep(env, s, w, reply).1))
    ensures StepKeeps(env, s, w, reply)
  {
    EvolvesReflexive(s);
    var (s', w') := StepWorker(env, s, w, reply);
    assert w' == w.(pc := w'.pc);
  }

  /** A step whose outcome the worker does not rely on afterwards. */
  lemma ClosingStep(env: Env, s: Store, w: Worker, reply: Reply, o: Outcome, next: Pc, onError: Pc)
    requires Invariant(env, s) && Knows(env, s, w) && !w.pc.AtRead?
    requires HandlerStep(env, s, w, reply) == Settle(s, o, reply, next, onError)
    requires o.Applied? ==> Invariant(env, o.store) && Evolves(s, o.store)
    requires Bare(next) && Bare(onError)
    ensures StepKeeps(env, s, w, reply)
  {
    SettleKeeps(env, s, o, reply, next, onError);
    var (s', w') := StepWorker(env, s, w, reply);
    MatchStays(s, s', w.subject, w.message);
  }

  /** Program counters with nothing to know. */
  predicate Bare(pc: Pc) {
    || pc.AtRead? || pc.Schedule? || pc.ResetDocument? || pc.FailTaskFirst? || pc.FailDocument? || pc.FailTask?
    || pc.Stopped?
  }

  lemma ClaimStep(env: Env, s: Store, w: Worker, reply: Reply)
    requires Invariant(env, s) && Knows(env, s, w) && w.pc.AtClaim?
    ensures StepKeeps(env, s, w, reply)
  {
    var id := w.message.task;
    if Claimable(s, id) {
      assert TaskShape(s, id) && TaskBacked(s, id);
      TaskChangeKeeps(env, s, id, Claim(s, id, env.lease).store.tasks[id]);
    }
    ClosingStep(env, s, w, reply, Claim(s, id, env.lease), AtRead, Stopped);
  }

  /** What a handler may rely on after reading its document. */
  lemma AfterReadFact(env: Env, s: Store, w: Worker)
    requires Invariant(env, s) && Knows(env, s, w) && IsLive(s, w.message.document)
    ensures PcFact(env, s, w.(pc := AfterRead(w.subject, s.documents[w.message.document])))
  {
    var d, id := w.message.document, w.message.task;
    assert TaskShape(s, id) && TaskBacked(s, id);
    assert DocumentBacked(env, s, d);
  }

  lemma ReadStep(env: Env, s: Store, w: Worker, reply: Reply)
    requires Invariant(env, s) && Knows(env, s, w) && w.pc.AtRead?
    ensures StepKeeps(env, s, w, reply)
  {
    EvolvesReflexive(s);
    if reply.transport == Arrives && IsLive(s, w.message.document) {
      var doc := s.documents[w.message.document];
      var read := w.(owner := doc.user);
      assert Knows(env, s, read);
      AfterReadFact(env, s, read);
      assert StepWorker(env, s, w, reply) == (s, read.(pc := AfterRead(w.subject, doc)));
    } else {
      var (s', w') := StepWorker(env, s, w, reply);
      assert s' == s && (w'.pc == Finish || w'.pc.Schedule?);
    }
  }

  /** The guarded status changes of the handlers, each allowed at its program counter. */
  lemma HandlerStatusStep(env: Env, s: Store, w: Worker, reply: Reply, status: DocumentStatus, next: Pc)
    requires Invariant(env, s) && Knows(env, s, w) && Handling(w.pc)
    requires var o := UpdateStatus(s, w.message.document, status);
      && HandlerStep(env, s, w, reply) == Settle(s, o, reply, next, Recover(reply))
      && (o.Applied? ==> StatusAllowed(s, w.message.document, status))
      && (o.Applied? && Matches(o.store, w.subject, w.message) ==> PcFact(env, o.store, w.(pc := next)))
    ensures StepKeeps(env, s, w, reply)
  {
    var o := UpdateStatus(s, w.message.document, status);
    if o.Applied? {
      StatusChangeKeeps(env, s, w.message.document, status);
      MatchStays(s, o.store, w.subject, w.message);
    }
    GuardedStep(env, s, w, reply, o, next);
  }

  lemma ParseMarkStep(env: Env, s: Store, w: Worker, reply: Reply)
    requires Invariant(env, s) && Knows(env, s, w) && w.pc.ParseMark?
    ensures StepKeeps(env, s, w, reply)
  {
    HandlerStatusStep(env, s, w, reply, Parsing, ParseFile(w.pc.file));
  }

  lemma ChunkMarkStep(env: Env, s: Store, w: Worker, reply: Reply)
    requires Invariant(env, s) && Knows(env, s, w) && w.pc.ChunkMark?
    ensures StepKeeps(env, s, w, reply)
  {
    HandlerStatusStep(env, s, w, reply, Chunking, ChunkBuild(w.pc.content));
  }

  lemma EmbedMarkStep(env: Env, s: Store, w: Worker, reply: Reply)
    requires Invariant(env, s) && Knows(env, s, w) && w.pc.EmbedMark?
    ensures StepKeeps(env, s, w, reply)
  {
    assert DocumentBacked(env, s, w.message.document);
    HandlerStatusStep(env, s, w, reply, Embedding, EmbedList);
  }

  /** The parser and its log. */
  lemma ParserSteps(env: Env, s: Store, w: Worker, reply: Reply)
    requires Invariant(env, s) && Knows(env, s, w) && (w.pc.ParseFile? || w.pc.ParseLog?)
    ensures StepKeeps(env, s, w, reply)
  {
    PlainStep(env, s, w, reply);
  }

  /** The embedding provider. */
  lemma EmbedStep(env: Env, s: Store, w: Worker, reply: Reply)
    requires Invariant(env, s) && Knows(env, s, w) && w.pc.EmbedVectors?
    ensures StepKeeps(env, s, w, reply)
  {
    PlainStep(env, s, w, reply);
  }

  /** The object store. */
  lemma RemoveStep(env: Env, s: Store, w: Worker, reply: Reply)
    requires Invariant(env, s) && Knows(env, s, w) && w.pc.RemoveObject?
    ensures StepKeeps(env, s, w, reply)
  {
    PlainStep(env, s, w, reply);
  }

  lemma BuildStep(env: Env, s: Store, w: Worker, reply: Reply)
    requires Invariant(env, s) && Knows(env, s, w) && w.pc.ChunkBuild?
    ensures StepKeeps(env, s, w, reply)
  {
    PlainStep(env, s, w, reply);
  }

  lemma VerifyStep(env: Env, s: Store, w: Worker, reply: Reply)
    requires Invariant(env, s) && Knows(env, s, w) && w.pc.VerifyVectors?
    ensures StepKeeps(env, s, w, reply)
  {
    PlainStep(env, s, w, reply);
  }

  lemma ParseCompleteStep(env: Env, s: Store, w: Worker, reply: Reply)
    requires Invariant(env, s) && Knows(env, s, w) && w.pc.ParseComplete?
    ensures StepKeeps(env, s, w, reply)
  {
    var d := w.message.document;
    var o := CompleteParse(s, d, w.pc.parsed);
    assert IsParseTaskOf(s, w.message.task, d);
    if o.Applied? {
      ParseCompletedKeeps(env, s, d, w.message.task, w.pc.parsed);
      MatchStays(s, o.store, w.subject, w.message);
    }
    GuardedStep(env, s, w, reply, o, EnqueueNext);
  }

  lemma ReplaceStep(env: Env, s: Store, w: Worker, reply: Reply)
    requires env.Valid() && Invariant(env, s) && Knows(env, s, w) && w.pc.ChunkReplace?
    ensures StepKeeps(env, s, w, reply)
  {
    var o := Applied(ReplaceByDocument(s, w.pc.rows));
    RowsReplacedKeeps(env, s, w.message.document, w.pc.rows);
    MatchStays(s, o.store, w.subject, w.message);
    GuardedStep(env, s, w, reply, o, ChunkDone);
  }

  lemma ChunkDoneStep(env: Env, s: Store, w: Worker, reply: Reply)
    requires Invariant(env, s) && Knows(env, s, w) && w.pc.ChunkDone?
    ensures StepKeeps(env, s, w, reply)
  {
    var d := w.message.document;
    assert DocumentBacked(env, s, d);
    if IsLive(s, d) {
      assert Rows(WithStatus(s, d, Chunked), d) == Rows(s, d);
    }
    HandlerStatusStep(env, s, w, reply, Chunked, EnqueueNext);
  }

  lemma CreateFollowUpKeeps(env: Env, s: Store, w: Worker)
    requires Invariant(env, s) && Knows(env, s, w) && w.pc.EnqueueNext?
    ensures var s' := CreateTask(s, Derived(w.message.task, NextKind(w.subject)), NextTask(w));
            Invariant(env, s') && Evolves(s, s') && StageDone(s', w.message.task, w.subject, w.message.document)
  {
    var id := Derived(w.message.task, NextKind(w.subject));
    if id in s.tasks {
      EvolvesReflexive(s);
    } else {
      assert TaskShape(s.(tasks := s.tasks[id := NextTask(w)]), id);
      TaskAddedKeeps(env, s, id, NextTask(w));
    }
  }

  lemma EnqueueStep(env: Env, s: Store, w: Worker, reply: Reply)
    requires Invariant(env, s) && Knows(env, s, w) && w.pc.EnqueueNext?
    ensures StepKeeps(env, s, w, reply)
  {
    var o := Applied(CreateTask(s, Derived(w.message.task, NextKind(w.subject)), NextTask(w)));
    CreateFollowUpKeeps(env, s, w);
    MatchStays(s, o.store, w.subject, w.message);
    assert PcFact(env, o.store, w.(pc := Finish));
    GuardedStep(env, s, w, reply, o, Finish);
  }

  lemma ListStep(env: Env, s: Store, w: Worker, reply: Reply)
    requires env.Valid() && Invariant(env, s) && Knows(env, s, w) && w.pc.EmbedList?
    ensures StepKeeps(env, s, w, reply)
  {
    ListIsRows(env, s, w.message.document);
    PlainStep(env, s, w, reply);
  }

  lemma UpsertStep(env: Env, s: Store, w: Worker, reply: Reply)
    requires Invariant(env, s) && Knows(env, s, w) && w.pc.EmbedUpsert?
    ensures StepKeeps(env, s, w, reply)
  {
    var d, rows := w.message.document, w.pc.rows;
    var o := Applied(UpsertChunks(s, rows));
    VectorsAddedKeeps(env, s, d, rows);
    MatchStays(s, o.store, w.subject, w.message);
    assert Rows(o.store, d) == Rows(s, d);
    GuardedStep(env, s, w, reply, o, EmbedDone);
  }

  lemma EmbedDoneStep(env: Env, s: Store, w: Worker, reply: Reply)
    requires Invariant(env, s) && Knows(env, s, w) && w.pc.EmbedDone?
    ensures StepKeeps(env, s, w, reply)
  {
    assert DocumentBacked(env, s, w.message.document);
    HandlerStatusStep(env, s, w, reply, Indexed, Finish);
  }

  lemma DropVectorsStep(env: Env, s: Store, w: Worker, reply: Reply)
    requires Invariant(env, s) && Knows(env, s, w) && w.pc.DropVectors?
    ensures StepKeeps(env, s, w, reply)
  {
    var d, id := w.message.document, w.message.task;
    assert TaskShape(s, id) && TaskBacked(s, id);
    var o := Applied(DeleteVectorsOf(s, d));
    VectorsDroppedKeeps(env, s, d);
    MatchStays(s, o.store, w.subject, w.message);
    GuardedStep(env, s, w, reply, o, VerifyVectors);
  }

  lemma DeleteDoneStep(env: Env, s: Store, w: Worker, reply: Reply)
    requires Invariant(env, s) && Knows(env, s, w) && w.pc.DeleteDone?
    ensures StepKeeps(env, s, w, reply)
  {
    var d := w.message.document;
    var o := CompleteDelete(s, d);
    if o.Applied? {
      DeleteCompletedKeeps(env, s, d);
      MatchStays(s, o.store, w.subject, w.message);
    }
    GuardedStep(env, s, w, reply, o, Finish);
  }

  /** Moving a task to success, failure or back to pending. */
  lemma TaskOutcomeKeeps(env: Env, s: Store, id: TaskId, o: Outcome)
    requires Invariant(env, s) && id in s.tasks
    requires o == ScheduleRetry(s, id) || o == UpdateTaskStatus(s, id, Errored)
             || (o == UpdateTaskStatus(s, id, Succeeded) && StageDone(s, id, s.tasks[id].kind, s.tasks[id].document))
    ensures o.Applied? ==> Invariant(env, o.store) && Evolves(s, o.store)
  {
    if o.Applied? {
      assert TaskShape(s, id) && TaskBacked(s, id);
      TaskChangeKeeps(env, s, id, o.store.tasks[id]);
    }
  }

  lemma FinishStep(env: Env, s: Store, w: Worker, reply: Reply)
    requires Invariant(env, s) && Knows(env, s, w) && w.pc.Finish?
    ensures StepKeeps(env, s, w, reply)
  {
    var o := UpdateTaskStatus(s, w.message.task, Succeeded);
    TaskOutcomeKeeps(env, s, w.message.task, o);
    ClosingStep(env, s, w, reply, o, Stopped, Stopped);
  }

  lemma FailTaskStep(env: Env, s: Store, w: Worker, reply: Reply)
    requires Invariant(env, s) && Knows(env, s, w) && w.pc.FailTask?
    ensures StepKeeps(env, s, w, reply)
  {
    var o := UpdateTaskStatus(s, w.message.task, Errored);
    TaskOutcomeKeeps(env, s, w.message.task, o);
    ClosingStep(env, s, w, reply, o, Stopped, Stopped);
  }

  lemma FailTaskFirstStep(env: Env, s: Store, w: Worker, reply: Reply)
    requires Invariant(env, s) && Knows(env, s, w) && w.pc.FailTaskFirst?
    ensures StepKeeps(env, s, w, reply)
  {
    var o := UpdateTaskStatus(s, w.message.task, Errored);
    TaskOutcomeKeeps(env, s, w.message.task, o);
    ClosingStep(env, s, w, reply, o, FailDocument, FailDocument);
  }

  lemma ScheduleStep(env: Env, s: Store, w: Worker, reply: Reply)
    requires Invariant(env, s) && Knows(env, s, w) && w.pc.Schedule?
    ensures StepKeeps(env, s, w, reply)
  {
    if w.pc.failure == Permanent {
      PlainStep(env, s, w, reply);
    } else {
      TaskOutcomeKeeps(env, s, w.message.task, ScheduleRetry(s, w.message.task));
      var next := if w.subject != DeleteTask && w.pc.failure != Publishing then ResetDocument else Stopped;
      ClosingStep(env, s, w, reply, ScheduleRetry(s, w.message.task), next, FailDocument);
    }
  }

  lemma ResetStep(env: Env, s: Store, w: Worker, reply: Reply)
    requires Invariant(env, s) && Knows(env, s, w) && w.pc.ResetDocument?
    ensures StepKeeps(env, s, w, reply)
  {
    var d, id := w.message.document, w.message.task;
    var o := ResetStatusForRetry(s, d, RetryTarget(w.subject));
    if o.Applied? {
      assert TaskShape(s, id) && TaskBacked(s, id);
      RetryTargetAllowed(env, s, w.subject, d);
      StatusChangeKeeps(env, s, d, RetryTarget(w.subject));
    }
    ClosingStep(env, s, w, reply, o, Stopped, FailTaskFirst);
  }

  lemma FailDocumentStep(env: Env, s: Store, w: Worker, reply: Reply)
    requires Invariant(env, s) && Knows(env, s, w) && w.pc.FailDocument?
    ensures StepKeeps(env, s, w, reply)
  {
    var o := UpdateStatus(s, w.message.document, FailedStatus(w.subject));
    if o.Applied? {
      StatusChangeKeeps(env, s, w.message.document, FailedStatus(w.subject));
    }
    ClosingStep(env, s, w, reply, o, FailTask, Stopped);
  }

  lemma ParseAndChunkSteps(env: Env, s: Store, w: Worker, reply: Reply)
    requires env.Valid() && Invariant(env, s) && Knows(env, s, w)
    requires w.pc.ParseMark? || w.pc.ParseComplete? || w.pc.ChunkMark? || w.pc.ChunkReplace? || w.pc.ChunkDone?
             || w.pc.EnqueueNext?
    ensures StepKeeps(env, s, w, reply)
  {
    match w.pc
    case ParseMark(_) => ParseMarkStep(env, s, w, reply);
    case ParseComplete(_) => ParseCompleteStep(env, s, w, reply);
    case ChunkMark(_) => ChunkMarkStep(env, s, w, reply);
    case ChunkReplace(_) => ReplaceStep(env, s, w, reply);
    case ChunkDone => ChunkDoneStep(env, s, w, reply);
    case EnqueueNext => EnqueueStep(env, s, w, reply);
  }

  lemma EmbedAndDeleteSteps(env: Env, s: Store, w: Worker, reply: Reply)
    requires env.Valid() && Invariant(env, s) && Knows(env, s, w)
    requires w.pc.EmbedMark? || w.pc.EmbedList? || w.pc.EmbedUpsert? || w.pc.EmbedDone? || w.pc.DropVectors?
             || w.pc.DeleteDone?
    ensures StepKeeps(env, s, w, reply)
  {
    match w.pc
    case EmbedMark => EmbedMarkStep(env, s, w, reply);
    case EmbedList => ListStep(env, s, w, reply);
    case EmbedUpsert(_) => UpsertStep(env, s, w, reply);
    case EmbedDone => EmbedDoneStep(env, s, w, reply);
    case DropVectors => DropVectorsStep(env, s, w, reply);
    case DeleteDone => DeleteDoneStep(env, s, w, reply);
  }

  lemma RunSteps(env: Env, s: Store, w: Worker, reply: Reply)
    requires Invariant(env, s) && Knows(env, s, w)
    requires w.pc.AtClaim? || w.pc.AtRead? || w.pc.Finish? || w.pc.Stopped?
    ensures StepKeeps(env, s, w, reply)
  {
    match w.pc
    case AtClaim => ClaimStep(env, s, w, reply);
    case AtRead => ReadStep(env, s, w, reply);
    case Finish => FinishStep(env, s, w, reply);
    case Stopped => EvolvesReflexive(s);
  }

  lemma RecoverySteps(env: Env, s: Store, w: Worker, reply: Reply)
    requires Invariant(env, s) && Knows(env, s, w)
    requires w.pc.Schedule? || w.pc.ResetDocument? || w.pc.FailDocument? || w.pc.FailTaskFirst? || w.pc.FailTask?
    ensures StepKeeps(env, s, w, reply)
  {
    match w.pc
    case Schedule(_) => ScheduleStep(env, s, w, reply);
    case ResetDocument => ResetStep(env, s, w, reply);
    case FailDocument => FailDocumentStep(env, s, w, reply);
    case FailTaskFirst => FailTaskFirstStep(env, s, w, reply);
    case FailTask => FailTaskStep(env, s, w, reply);
  }

  /** Each step of a worker, however the call goes, keeps the invariant, only lets the store evolve,
      and leaves the worker knowing what its next program counter relies on. */
  lemma WorkerStepKeeps(env: Env, s: Store, w: Worker, reply: Reply)
    requires env.Valid() && Invariant(env, s) && Knows(env, s, w)
    ensures StepKeeps(env, s, w, reply)
  {
    if w.pc.AtClaim? || w.pc.AtRead? || w.pc.Finish? || w.pc.Stopped? {
      RunSteps(env, s, w, reply);
    } else if Bare(w.pc) {
      RecoverySteps(env, s, w, reply);
    } else if w.pc.ParseFile? || w.pc.ParseLog? {
      ParserSteps(env, s, w, reply);
    } else if w.pc.EmbedVectors? {
      EmbedStep(env, s, w, reply);
    } else if w.pc.RemoveObject? {
      RemoveStep(env, s, w, reply);
    } else if w.pc.ChunkBuild? {
      BuildStep(env, s, w, reply);
    } else if w.pc.VerifyVectors? {
      VerifyStep(env, s, w, reply);
    } else if w.pc.EmbedMark? || w.pc.EmbedList? || w.pc.EmbedUpsert? || w.pc.EmbedDone? || w.pc.DropVectors?
              || w.pc.DeleteDone? {
      EmbedAndDeleteSteps(env, s, w, reply);
    } else {
      ParseAndChunkSteps(env, s, w, reply);
    }
  }
}
