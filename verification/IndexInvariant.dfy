/** What every statement of the indexing pipeline keeps.  `Invariant` speaks of one database;
    `Evolves` relates a database to any later one and is what makes a worker's stale knowledge safe:
    every fact a worker relies on is stable under it. */
module IndexInvariant {
  import opened Options
  import opened Status
  import opened Chunker
  import opened IndexStore

  // ----- The invariant -----

  ghost predicate Follows(s: Store, id: TaskId, parentKind: TaskKind)
    requires id in s.tasks
  {
    && id.Derived? && id.purpose == s.tasks[id].kind && id.parent in s.tasks
    && s.tasks[id.parent].kind == parentKind && s.tasks[id.parent].document == s.tasks[id].document
  }

  /** Follow-up tasks carry the id derived from the stage before them, for the same document. */
  ghost predicate TaskShape(s: Store, id: TaskId)
    requires id in s.tasks
  {
    var task := s.tasks[id];
    && task.document in s.documents && s.documents[task.document].user == task.user
    && match task.kind
       case ParseTask => id.Fresh?
       case DeleteTask => id.Fresh?
       case ChunkTask => Follows(s, id, ParseTask)
       case EmbedTask => Follows(s, id, ChunkTask)
  }

  /** What a finished stage has left behind. */
  ghost predicate StageDone(s: Store, id: TaskId, kind: TaskKind, d: DocumentId) {
    match kind
    case ParseTask => Derived(id, ChunkTask) in s.tasks
    case ChunkTask => Derived(id, EmbedTask) in s.tasks
    case EmbedTask =>
      && d in s.documents
      && (s.documents[d].deleted || s.documents[d].status == Indexed || InDeletion(s.documents[d].status))
    case DeleteTask => d in s.documents && s.documents[d].deleted
  }

  /** What the mere existence of a task says about its document. */
  ghost predicate TaskReady(s: Store, kind: TaskKind, d: DocumentId)
    requires d in s.documents
  {
    match kind
    case ParseTask => true
    case ChunkTask => s.documents[d].content.Some?
    case EmbedTask => s.documents[d].deleted || Rows(s, d) != []
    case DeleteTask => s.documents[d].deleted || InDeletion(s.documents[d].status)
  }

  ghost predicate TaskBacked(s: Store, id: TaskId)
    requires id in s.tasks && TaskShape(s, id)
  {
    var task := s.tasks[id];
    && TaskReady(s, task.kind, task.document)
    && (task.status == Succeeded ==> StageDone(s, id, task.kind, task.document))
    && (task.status == Running <==> task.lease.Some?)
  }

  predicate NeedsContent(status: DocumentStatus) {
    AtOrBeyond(status, Parsed)
  }

  predicate NeedsRows(status: DocumentStatus) {
    AtOrBeyond(status, Chunked)
  }

  ghost predicate DocumentBacked(env: Env, s: Store, d: DocumentId)
    requires d in s.documents
  {
    var doc := s.documents[d];
    && (forall r :: r in Rows(s, d) ==> r.id.document == d)
    && (!doc.deleted ==>
          && (NeedsContent(doc.status) ==> doc.content.Some?)
          && (NeedsRows(doc.status) ==> Rows(s, d) != [])
          && (doc.status == Indexed ==> IdsOf(Rows(s, d)) <= s.vectors)
          && (Rows(s, d) != [] ==> doc.content.Some? && env.build(d, doc.content.value) == Some(Rows(s, d)))
          && (forall v :: v in s.vectors && v.document == d ==> v in IdsOf(Rows(s, d))))
  }

  ghost predicate OutboxPaired(s: Store) {
    && s.outbox.Keys == s.tasks.Keys
    && (forall id :: id in s.tasks ==>
          s.outbox[id].subject == s.tasks[id].kind && s.outbox[id].message == Payload(id, s.tasks[id]))
  }

  predicate IsParseTaskOf(s: Store, id: TaskId, d: DocumentId) {
    id in s.tasks && s.tasks[id].kind == ParseTask && s.tasks[id].document == d
  }

  ghost predicate HasParseTask(s: Store, d: DocumentId) {
    exists id :: IsParseTaskOf(s, id, d)
  }

  ghost predicate OneParseTask(s: Store) {
    && (forall d {:trigger HasParseTask(s, d)} :: d in s.documents ==> HasParseTask(s, d))
    && (forall d, i, j :: IsParseTaskOf(s, i, d) && IsParseTaskOf(s, j, d) ==> i == j)
  }

  /** The stored content of a document is the parse of its file in the mode it was uploaded with. */
  ghost predicate ContentParsed(env: Env, s: Store) {
    forall id, d :: IsParseTaskOf(s, id, d) && d in s.documents && s.documents[d].content.Some? ==>
      s.documents[d].content == Some(env.parse(s.documents[d].file, s.tasks[id].mode))
  }

  // The triggers below keep the quantifiers from unfolding a task's ancestors on their own.

  ghost predicate TasksBacked(s: Store) {
    forall id {:trigger TaskShape(s, id)} {:trigger TaskBacked(s, id)} ::
      id in s.tasks ==> TaskShape(s, id) && TaskBacked(s, id)
  }

  ghost predicate DocumentsBacked(env: Env, s: Store) {
    forall d {:trigger DocumentBacked(env, s, d)} :: d in s.documents ==> DocumentBacked(env, s, d)
  }

  ghost predicate Invariant(env: Env, s: Store) {
    && TasksBacked(s)
    && DocumentsBacked(env, s)
    && s.chunks.Keys <= s.documents.Keys
    && (forall v :: v in s.vectors ==> v.document in s.documents)
    && OutboxPaired(s) && OneParseTask(s) && ContentParsed(env, s)
  }

  // ----- Evolution -----

  ghost predicate DocumentEvolves(s: Store, s': Store, d: DocumentId)
    requires d in s.documents && d in s'.documents
  {
    var doc, doc' := s.documents[d], s'.documents[d];
    && doc'.file == doc.file && doc'.user == doc.user
    && (doc.content.Some? ==> doc'.content == doc.content)
    && (doc.deleted ==> doc' == doc)
    && (InDeletion(doc.status) ==> InDeletion(doc'.status))
    && (doc.status == Indexed ==> doc'.status == Indexed || InDeletion(doc'.status))
    && (!doc'.deleted && Rows(s, d) != [] ==> Rows(s', d) == Rows(s, d))
    && (!doc'.deleted && !InDeletion(doc'.status) ==> forall v :: v in s.vectors && v.document == d ==> v in s'.vectors)
  }

  ghost predicate TaskEvolves(s: Store, s': Store, id: TaskId)
    requires id in s.tasks && id in s'.tasks
  {
    var task, task' := s.tasks[id], s'.tasks[id];
    && task'.document == task.document && task'.user == task.user && task'.kind == task.kind && task'.mode == task.mode
    && task.retries <= task'.retries
    && (task.status == Succeeded ==> task' == task)
  }

  ghost predicate Evolves(s: Store, s': Store) {
    && s.documents.Keys <= s'.documents.Keys && s.tasks.Keys <= s'.tasks.Keys && s.now <= s'.now
    && (forall d {:trigger DocumentEvolves(s, s', d)} :: d in s.documents ==> DocumentEvolves(s, s', d))
    && (forall id {:trigger TaskEvolves(s, s', id)} :: id in s.tasks ==> TaskEvolves(s, s', id))
  }

  lemma EvolvesTransitive(s: Store, t: Store, u: Store)
    requires Evolves(s, t) && Evolves(t, u)
    ensures Evolves(s, u)
  {
    forall d | d in s.documents
      ensures d in u.documents && DocumentEvolves(s, u, d)
    {
      assert DocumentEvolves(s, t, d) && DocumentEvolves(t, u, d);
    }
    forall id | id in s.tasks
      ensures id in u.tasks && TaskEvolves(s, u, id)
    {
      assert TaskEvolves(s, t, id) && TaskEvolves(t, u, id);
    }
  }

  lemma StageStaysDone(s: Store, s': Store, id: TaskId, kind: TaskKind, d: DocumentId)
    requires Evolves(s, s') && StageDone(s, id, kind, d)
    ensures StageDone(s', id, kind, d)
  {
    if d in s.documents {
      assert DocumentEvolves(s, s', d);
    }
  }

  lemma TaskStaysReady(s: Store, s': Store, kind: TaskKind, d: DocumentId)
    requires Evolves(s, s') && d in s.documents && TaskReady(s, kind, d)
    ensures d in s'.documents && TaskReady(s', kind, d)
  {
    assert DocumentEvolves(s, s', d);
  }

  /** Tasks other than the one a statement touches keep what the invariant says of them. */
  lemma OtherTasksKept(env: Env, s: Store, s': Store, touched: set<TaskId>)
    requires Invariant(env, s) && Evolves(s, s')
    requires forall id :: id in s.tasks && id !in touched ==> s'.tasks[id] == s.tasks[id]
    ensures forall id :: id in s.tasks && id !in touched ==> TaskShape(s', id) && TaskBacked(s', id)
  {
    forall id | id in s.tasks && id !in touched
      ensures TaskShape(s', id) && TaskBacked(s', id)
    {
      var task := s.tasks[id];
      assert TaskShape(s, id) && TaskBacked(s, id);
      assert DocumentEvolves(s, s', task.document);
      if id.Derived? && id.parent in s.tasks {
        assert TaskEvolves(s, s', id.parent);
      }
      TaskStaysReady(s, s', task.kind, task.document);
      if task.status == Succeeded {
        StageStaysDone(s, s', id, task.kind, task.document);
      }
    }
  }

  // ----- Putting the pieces together -----

  /** A document a statement leaves alone. */
  lemma FrameDocument(env: Env, s: Store, s': Store, d: DocumentId)
    requires d in s.documents && d in s'.documents && DocumentBacked(env, s, d)
    requires s'.documents[d] == s.documents[d] && Rows(s', d) == Rows(s, d)
    requires forall v: ChunkId :: v.document == d ==> (v in s'.vectors <==> v in s.vectors)
    ensures DocumentEvolves(s, s', d) && DocumentBacked(env, s', d)
  {
    if s.documents[d].status == Indexed {
      forall v | v in IdsOf(Rows(s, d))
        ensures v.document == d
      {
        var r :| r in Rows(s, d) && r.id == v;
      }
    }
  }

  ghost predicate DocumentsKept(env: Env, s: Store, s': Store) {
    && s.documents.Keys <= s'.documents.Keys
    && (forall d {:trigger DocumentEvolves(s, s', d)} :: d in s.documents ==> DocumentEvolves(s, s', d))
    && DocumentsBacked(env, s')
    && s'.chunks.Keys <= s'.documents.Keys
    && (forall v :: v in s'.vectors ==> v.document in s'.documents)
  }

  /** Documents keep their one parse task, and contents stay parsed, when tasks and contents do. */
  ghost predicate SameParses(s: Store, s': Store) {
    && s'.tasks.Keys == s.tasks.Keys && s'.documents.Keys == s.documents.Keys
    && (forall id :: id in s.tasks ==>
          && s'.tasks[id].kind == s.tasks[id].kind && s'.tasks[id].document == s.tasks[id].document
          && s'.tasks[id].mode == s.tasks[id].mode)
    && (forall d :: d in s.documents ==>
          s'.documents[d].content == s.documents[d].content && s'.documents[d].file == s.documents[d].file)
  }

  lemma ParseTasksSame(env: Env, s: Store, s': Store)
    requires OneParseTask(s) && ContentParsed(env, s) && SameParses(s, s')
    ensures OneParseTask(s') && ContentParsed(env, s')
  {
    forall d | d in s'.documents
      ensures HasParseTask(s', d)
    {
      assert HasParseTask(s, d);
      var id :| IsParseTaskOf(s, id, d);
      assert IsParseTaskOf(s', id, d);
    }
    forall d, i, j | IsParseTaskOf(s', i, d) && IsParseTaskOf(s', j, d)
      ensures i == j
    {
      assert IsParseTaskOf(s, i, d) && IsParseTaskOf(s, j, d);
    }
    forall id, d | IsParseTaskOf(s', id, d) && d in s'.documents && s'.documents[d].content.Some?
      ensures s'.documents[d].content == Some(env.parse(s'.documents[d].file, s'.tasks[id].mode))
    {
      assert IsParseTaskOf(s, id, d);
    }
  }

  /** A statement that changes no task. */
  lemma DocumentStatementKeeps(env: Env, s: Store, s': Store)
    requires Invariant(env, s) && DocumentsKept(env, s, s')
    requires s'.tasks == s.tasks && s.now <= s'.now && OutboxPaired(s') && OneParseTask(s') && ContentParsed(env, s')
    ensures Invariant(env, s') && Evolves(s, s')
  {
    OtherTasksKept(env, s, s', {});
  }

  /** A statement that changes or adds one task. */
  lemma TaskStatementKeeps(env: Env, s: Store, s': Store, id: TaskId)
    requires Invariant(env, s) && DocumentsKept(env, s, s') && Evolves(s, s')
    requires s'.tasks.Keys == s.tasks.Keys + {id}
    requires forall i :: i in s.tasks && i != id ==> s'.tasks[i] == s.tasks[i]
    requires TaskShape(s', id) && TaskBacked(s', id)
    requires OutboxPaired(s') && OneParseTask(s') && ContentParsed(env, s')
    ensures Invariant(env, s')
  {
    OtherTasksKept(env, s, s', {id});
  }

  lemma AllDocumentsFramed(env: Env, s: Store, s': Store)
    requires Invariant(env, s)
    requires s'.documents == s.documents && s'.chunks == s.chunks && s'.vectors == s.vectors
    ensures DocumentsKept(env, s, s')
  {
    forall d | d in s.documents
      ensures DocumentEvolves(s, s', d) && DocumentBacked(env, s', d)
    {
      FrameDocument(env, s, s', d);
    }
  }

  // ----- Statements that touch one row -----

  /** A status change of one live document. */
  ghost predicate StatusAllowed(s: Store, d: DocumentId, next: DocumentStatus)
    requires d in s.documents
  {
    var doc := s.documents[d];
    && !doc.deleted
    && (InDeletion(doc.status) || doc.status == Indexed ==> InDeletion(next))
    && (NeedsContent(next) ==> doc.content.Some?)
    && (NeedsRows(next) ==> Rows(s, d) != [])
    && (next == Indexed ==> IdsOf(Rows(s, d)) <= s.vectors)
  }

  lemma StatusChangeOfDocument(env: Env, s: Store, d: DocumentId, next: DocumentStatus)
    requires d in s.documents && DocumentBacked(env, s, d) && StatusAllowed(s, d, next)
    ensures DocumentEvolves(s, WithStatus(s, d, next), d) && DocumentBacked(env, WithStatus(s, d, next), d)
  {
    assert Rows(WithStatus(s, d, next), d) == Rows(s, d);
  }

  lemma StatusChangeKeeps(env: Env, s: Store, d: DocumentId, next: DocumentStatus)
    requires Invariant(env, s) && d in s.documents && StatusAllowed(s, d, next)
    ensures Invariant(env, WithStatus(s, d, next)) && Evolves(s, WithStatus(s, d, next))
  {
    var s' := WithStatus(s, d, next);
    forall e | e in s.documents
      ensures DocumentEvolves(s, s', e) && DocumentBacked(env, s', e)
    {
      if e == d {
        StatusChangeOfDocument(env, s, d, next);
      } else {
        FrameDocument(env, s, s', e);
      }
    }
    ParseTasksSame(env, s, s');
    DocumentStatementKeeps(env, s, s');
  }

  /** A change of the status, lease and retry count of one task that has not succeeded. */
  ghost predicate TaskChangeAllowed(s: Store, id: TaskId, task: Task)
    requires id in s.tasks
  {
    var before := s.tasks[id];
    && task.document == before.document && task.user == before.user
    && task.kind == before.kind && task.mode == before.mode
    && before.status != Succeeded && before.retries <= task.retries
    && (task.status == Running <==> task.lease.Some?)
    && (task.status == Succeeded ==> StageDone(s, id, task.kind, task.document))
  }

  lemma TaskChangeKeeps(env: Env, s: Store, id: TaskId, task: Task)
    requires Invariant(env, s) && id in s.tasks && TaskChangeAllowed(s, id, task)
    ensures var s' := s.(tasks := s.tasks[id := task]); Invariant(env, s') && Evolves(s, s')
  {
    var s' := s.(tasks := s.tasks[id := task]);
    AllDocumentsFramed(env, s, s');
    assert Evolves(s, s');
    assert TaskShape(s, id) && TaskBacked(s, id);
    TaskStaysReady(s, s', task.kind, task.document);
    if task.status == Succeeded {
      StageStaysDone(s, s', id, task.kind, task.document);
    }
    ParseTasksSame(env, s, s');
    TaskStatementKeeps(env, s, s', id);
  }

  /** A follow-up or delete task is added together with its outbox row. */
  lemma TaskAddedKeeps(env: Env, s: Store, id: TaskId, task: Task)
    requires Invariant(env, s) && id !in s.tasks
    requires task.kind != ParseTask && task.status == Pending && task.lease.None?
    requires task.document in s.documents && s.documents[task.document].user == task.user
    requires TaskReady(s, task.kind, task.document)
    requires TaskShape(s.(tasks := s.tasks[id := task]), id)
    ensures var s' := EnqueueOutbox(s.(tasks := s.tasks[id := task]), id, task, false);
            Invariant(env, s') && Evolves(s, s')
  {
    var s' := EnqueueOutbox(s.(tasks := s.tasks[id := task]), id, task, false);
    AllDocumentsFramed(env, s, s');
    assert Evolves(s, s');
    TaskStaysReady(s, s', task.kind, task.document);
    assert TaskShape(s', id);
    AddedTaskIsNoParse(env, s, s', id);
    TaskStatementKeeps(env, s, s', id);
  }

  lemma AddedTaskIsNoParse(env: Env, s: Store, s': Store, id: TaskId)
    requires OneParseTask(s) && ContentParsed(env, s) && s'.documents == s.documents
    requires id !in s.tasks && s'.tasks.Keys == s.tasks.Keys + {id} && s'.tasks[id].kind != ParseTask
    requires forall i :: i in s.tasks ==> s'.tasks[i] == s.tasks[i]
    ensures OneParseTask(s') && ContentParsed(env, s')
  {
    forall d | d in s'.documents
      ensures HasParseTask(s', d)
    {
      assert HasParseTask(s, d);
      var i :| IsParseTaskOf(s, i, d);
      assert IsParseTaskOf(s', i, d);
    }
    assert forall i, d :: IsParseTaskOf(s', i, d) ==> IsParseTaskOf(s, i, d);
  }

  /** Locking, publishing and rescheduling outbox rows, re-enqueuing a task, and the passing of time. */
  lemma OutboxChangeKeeps(env: Env, s: Store, s': Store)
    requires Invariant(env, s) && s.now <= s'.now
    requires s' == s.(outbox := s'.outbox, now := s'.now) && OutboxPaired(s')
    ensures Invariant(env, s') && Evolves(s, s')
  {
    AllDocumentsFramed(env, s, s');
    ParseTasksSame(env, s, s');
    DocumentStatementKeeps(env, s, s');
  }

  // ----- Transactions -----

  lemma UploadedParse(env: Env, s: Store, s': Store, d: DocumentId, id: TaskId)
    requires OneParseTask(s) && ContentParsed(env, s) && d !in s.documents && id !in s.tasks
    requires forall i :: i in s.tasks ==> s.tasks[i].document in s.documents
    requires s'.documents.Keys == s.documents.Keys + {d} && s'.tasks.Keys == s.tasks.Keys + {id}
    requires forall e :: e in s.documents ==> s'.documents[e] == s.documents[e]
    requires forall i :: i in s.tasks ==> s'.tasks[i] == s.tasks[i]
    requires IsParseTaskOf(s', id, d) && s'.documents[d].content.None?
    ensures OneParseTask(s') && ContentParsed(env, s')
  {
    forall e | e in s'.documents
      ensures HasParseTask(s', e)
    {
      if e != d {
        assert HasParseTask(s, e);
        var i :| IsParseTaskOf(s, i, e);
        assert IsParseTaskOf(s', i, e);
      }
    }
    assert IsParseTaskOf(s', id, d);
    forall i, e | IsParseTaskOf(s', i, e) && i != id
      ensures IsParseTaskOf(s, i, e) && e in s.documents
    {
    }
  }

  lemma UploadKeepsDocuments(env: Env, s: Store, d: DocumentId, user: UserId, file: string, id: TaskId, mode: Mode)
    requires Invariant(env, s) && CreateWithIndexTask(s, d, user, file, id, mode).Applied?
    ensures var s' := CreateWithIndexTask(s, d, user, file, id, mode).store; DocumentsKept(env, s, s')
  {
    var s' := CreateWithIndexTask(s, d, user, file, id, mode).store;
    forall e | e in s.documents
      ensures DocumentEvolves(s, s', e) && DocumentBacked(env, s', e)
    {
      FrameDocument(env, s, s', e);
    }
    assert Rows(s', d) == [];
    assert DocumentBacked(env, s', d);
  }

  lemma UploadKeeps(env: Env, s: Store, d: DocumentId, user: UserId, file: string, id: TaskId, mode: Mode)
    requires Invariant(env, s) && id.Fresh? && CreateWithIndexTask(s, d, user, file, id, mode).Applied?
    ensures var s' := CreateWithIndexTask(s, d, user, file, id, mode).store; Invariant(env, s') && Evolves(s, s')
  {
    var s' := CreateWithIndexTask(s, d, user, file, id, mode).store;
    UploadKeepsDocuments(env, s, d, user, file, id, mode);
    assert TaskShape(s', id) && TaskBacked(s', id);
    forall i | i in s.tasks
      ensures s.tasks[i].document in s.documents
    {
      assert TaskShape(s, i);
    }
    UploadedParse(env, s, s', d, id);
    TaskStatementKeeps(env, s, s', id);
  }

  lemma DeleteRequestKeeps(env: Env, s: Store, d: DocumentId, user: UserId, id: TaskId)
    requires Invariant(env, s) && id.Fresh? && CreateDeleteTask(s, d, user, id).Applied?
    ensures var s' := CreateDeleteTask(s, d, user, id).store; Invariant(env, s') && Evolves(s, s')
  {
    var t := WithStatus(s, d, Deleting);
    StatusChangeKeeps(env, s, d, Deleting);
    TaskAddedKeeps(env, t, id, Task(d, user, DeleteTask, Unset, Pending, 0, None));
    EvolvesTransitive(s, t, CreateDeleteTask(s, d, user, id).store);
  }

  /** A retry may put the document of an existing task back to the stage before the task. */
  lemma RetryTargetAllowed(env: Env, s: Store, kind: TaskKind, d: DocumentId)
    requires Invariant(env, s) && d in s.documents && !s.documents[d].deleted && TaskReady(s, kind, d)
    requires DocumentRetryPrevious(RetryTarget(kind)).Some?
    requires s.documents[d].status in DocumentRetryPrevious(RetryTarget(kind)).value
    ensures StatusAllowed(s, d, RetryTarget(kind))
  {
    assert DocumentBacked(env, s, d);
  }

  /** The task half and the document half of a manual retry. */
  lemma RetryResets(env: Env, s: Store, id: TaskId, task: Task)
    requires Invariant(env, s) && id in s.tasks && TaskChangeAllowed(s, id, task)
    requires IsLive(s, task.document)
    requires DocumentRetryPrevious(RetryTarget(task.kind)).Some?
    requires s.documents[task.document].status in DocumentRetryPrevious(RetryTarget(task.kind)).value
    ensures var u := WithStatus(s.(tasks := s.tasks[id := task]), task.document, RetryTarget(task.kind));
            Invariant(env, u) && Evolves(s, u)
  {
    var t := s.(tasks := s.tasks[id := task]);
    var u := WithStatus(t, task.document, RetryTarget(task.kind));
    assert TaskShape(s, id) && TaskBacked(s, id);
    TaskChangeKeeps(env, s, id, task);
    TaskStaysReady(s, t, task.kind, task.document);
    RetryTargetAllowed(env, t, task.kind, task.document);
    StatusChangeKeeps(env, t, task.document, RetryTarget(task.kind));
    EvolvesTransitive(s, t, u);
  }

  lemma RetryKeeps(env: Env, s: Store, id: TaskId, user: UserId)
    requires Invariant(env, s) && Retry(s, id, user).Applied?
    ensures var s' := Retry(s, id, user).store; Invariant(env, s') && Evolves(s, s')
  {
    var task := s.tasks[id].(status := Pending, retries := s.tasks[id].retries + 1, lease := None);
    var u := WithStatus(s.(tasks := s.tasks[id := task]), task.document, RetryTarget(task.kind));
    RetryResets(env, s, id, task);
    RetryEnqueues(env, u, id, task);
    EvolvesTransitive(s, u, EnqueueOutbox(u, id, task, true));
  }

  lemma RetryEnqueues(env: Env, s: Store, id: TaskId, task: Task)
    requires Invariant(env, s) && id in s.tasks && s.tasks[id] == task
    ensures var s' := EnqueueOutbox(s, id, task, true); Invariant(env, s') && Evolves(s, s')
  {
    var s' := EnqueueOutbox(s, id, task, true);
    assert OutboxPaired(s');
    OutboxChangeKeeps(env, s, s');
  }

  lemma ParseCompletedOfDocument(env: Env, s: Store, d: DocumentId, content: ParsedText)
    requires d in s.documents && DocumentBacked(env, s, d) && CompleteParse(s, d, content).Applied?
    requires s.documents[d].content.Some? ==> s.documents[d].content.value == content
    ensures var s' := CompleteParse(s, d, content).store; DocumentEvolves(s, s', d) && DocumentBacked(env, s', d)
  {
    assert Rows(CompleteParse(s, d, content).store, d) == Rows(s, d);
  }

  lemma ParseCompletedKeeps(env: Env, s: Store, d: DocumentId, id: TaskId, content: ParsedText)
    requires Invariant(env, s) && IsParseTaskOf(s, id, d) && CompleteParse(s, d, content).Applied?
    requires content == env.parse(s.documents[d].file, s.tasks[id].mode)
    ensures var s' := CompleteParse(s, d, content).store; Invariant(env, s') && Evolves(s, s')
  {
    var s' := CompleteParse(s, d, content).store;
    forall e | e in s.documents
      ensures DocumentEvolves(s, s', e) && DocumentBacked(env, s', e)
    {
      if e == d {
        ParseCompletedOfDocument(env, s, d, content);
      } else {
        FrameDocument(env, s, s', e);
      }
    }
    ParsedStaysParsed(env, s, s', d, id, content);
    DocumentStatementKeeps(env, s, s');
  }

  lemma ParsedStaysParsed(env: Env, s: Store, s': Store, d: DocumentId, id: TaskId, content: ParsedText)
    requires OneParseTask(s) && ContentParsed(env, s) && IsParseTaskOf(s, id, d) && d in s.documents
    requires s'.tasks == s.tasks && s'.documents.Keys == s.documents.Keys
    requires forall e :: e in s.documents && e != d ==> s'.documents[e] == s.documents[e]
    requires s'.documents[d].content == Some(content) && content == env.parse(s'.documents[d].file, s.tasks[id].mode)
    ensures OneParseTask(s') && ContentParsed(env, s')
  {
    assert forall i, e :: IsParseTaskOf(s', i, e) <==> IsParseTaskOf(s, i, e);
    forall e | e in s'.documents
      ensures HasParseTask(s', e)
    {
      assert HasParseTask(s, e);
      var i :| IsParseTaskOf(s, i, e);
      assert IsParseTaskOf(s', i, e);
    }
  }

  lemma DeleteCompletedOfDocument(env: Env, s: Store, d: DocumentId)
    requires d in s.documents && DocumentBacked(env, s, d) && CompleteDelete(s, d).Applied?
    ensures var s' := CompleteDelete(s, d).store; DocumentEvolves(s, s', d) && DocumentBacked(env, s', d)
  {
    var s' := CompleteDelete(s, d).store;
    forall r | r in Rows(s', d)
      ensures r.id.document == d
    {
      var i :| 0 <= i < |Rows(s', d)| && Rows(s', d)[i] == r;
      assert Rows(s, d)[i] in Rows(s, d);
    }
  }

  lemma DeleteCompletedKeeps(env: Env, s: Store, d: DocumentId)
    requires Invariant(env, s) && CompleteDelete(s, d).Applied?
    ensures var s' := CompleteDelete(s, d).store; Invariant(env, s') && Evolves(s, s')
  {
    var s' := CompleteDelete(s, d).store;
    forall e | e in s.documents
      ensures DocumentEvolves(s, s', e) && DocumentBacked(env, s', e)
    {
      if e == d {
        DeleteCompletedOfDocument(env, s, d);
      } else {
        FrameDocument(env, s, s', e);
      }
    }
    ParseTasksSame(env, s, s');
    DocumentStatementKeeps(env, s, s');
  }

  /** Writing chunk rows is not guarded by the document's status; it is safe however late it comes
      because the rows can only be the ones the stored content determines. */
  lemma RowsReplacedKeeps(env: Env, s: Store, d: DocumentId, rows: seq<ChunkRow>)
    requires env.Valid() && Invariant(env, s) && d in s.documents
    requires s.documents[d].content.Some? && env.build(d, s.documents[d].content.value) == Some(rows)
    ensures var s' := ReplaceByDocument(s, rows); Invariant(env, s') && Evolves(s, s') && Rows(s', d) == rows != []
  {
    assert OwnLiveRows(d, rows);
    assert rows[0] in rows;
    var s' := ReplaceByDocument(s, rows);
    forall e | e in s.documents
      ensures DocumentEvolves(s, s', e) && DocumentBacked(env, s', e)
    {
      if e == d {
        RowsReplacedOfDocument(env, s, s', d, rows);
      } else {
        FrameDocument(env, s, s', e);
      }
    }
    ParseTasksSame(env, s, s');
    DocumentStatementKeeps(env, s, s');
  }

  lemma RowsReplacedOfDocument(env: Env, s: Store, s': Store, d: DocumentId, rows: seq<ChunkRow>)
    requires d in s.documents && DocumentBacked(env, s, d) && OwnLiveRows(d, rows)
    requires s.documents[d].content.Some? && env.build(d, s.documents[d].content.value) == Some(rows)
    requires s'.documents == s.documents && s'.vectors == s.vectors && Rows(s', d) == rows
    ensures DocumentEvolves(s, s', d) && DocumentBacked(env, s', d)
  {
  }

  /** An upsert of the rows of one document: those stored if it is live, any of its own if it is gone. */
  lemma VectorsAddedKeeps(env: Env, s: Store, d: DocumentId, rows: seq<ChunkRow>)
    requires Invariant(env, s) && d in s.documents
    requires forall r :: r in rows ==> r.id.document == d
    requires s.documents[d].deleted || rows == Rows(s, d)
    ensures var s' := UpsertChunks(s, rows); Invariant(env, s') && Evolves(s, s') && IdsOf(rows) <= s'.vectors
  {
    var s' := UpsertChunks(s, rows);
    IdsOfOwn(rows, d);
    forall e | e in s.documents
      ensures DocumentEvolves(s, s', e) && DocumentBacked(env, s', e)
    {
      if e == d {
        VectorsAddedOfDocument(env, s, d, rows);
      } else {
        FrameDocument(env, s, s', e);
      }
    }
    ParseTasksSame(env, s, s');
    DocumentStatementKeeps(env, s, s');
  }

  lemma IdsOfOwn(rows: seq<ChunkRow>, d: DocumentId)
    requires forall r :: r in rows ==> r.id.document == d
    ensures forall v :: v in IdsOf(rows) ==> v.document == d
  {
    forall v | v in IdsOf(rows)
      ensures v.document == d
    {
      var r :| r in rows && r.id == v;
    }
  }

  lemma VectorsAddedOfDocument(env: Env, s: Store, d: DocumentId, rows: seq<ChunkRow>)
    requires d in s.documents && DocumentBacked(env, s, d)
    requires s.documents[d].deleted || rows == Rows(s, d)
    ensures var s' := UpsertChunks(s, rows); DocumentEvolves(s, s', d) && DocumentBacked(env, s', d)
  {
    assert Rows(UpsertChunks(s, rows), d) == Rows(s, d);
  }

  /** Vectors are only removed for a document already on its way out. */
  lemma VectorsDroppedKeeps(env: Env, s: Store, d: DocumentId)
    requires Invariant(env, s) && d in s.documents && (s.documents[d].deleted || InDeletion(s.documents[d].status))
    ensures var s' := DeleteVectorsOf(s, d); Invariant(env, s') && Evolves(s, s')
  {
    var s' := DeleteVectorsOf(s, d);
    forall e | e in s.documents
      ensures DocumentEvolves(s, s', e) && DocumentBacked(env, s', e)
    {
      if e == d {
        VectorsDroppedOfDocument(env, s, d);
      } else {
        FrameDocument(env, s, s', e);
      }
    }
    ParseTasksSame(env, s, s');
    DocumentStatementKeeps(env, s, s');
  }

  lemma VectorsDroppedOfDocument(env: Env, s: Store, d: DocumentId)
    requires d in s.documents && DocumentBacked(env, s, d)
    requires s.documents[d].deleted || InDeletion(s.documents[d].status)
    ensures var s' := DeleteVectorsOf(s, d); DocumentEvolves(s, s', d) && DocumentBacked(env, s', d)
  {
    assert Rows(DeleteVectorsOf(s, d), d) == Rows(s, d);
  }

  // ----- Reading rows back -----

  lemma {:induction false} LiveRowsOfLive(rows: seq<ChunkRow>)
    requires forall r :: r in rows ==> !r.deleted
    ensures LiveRows(rows) == rows
  {
    if rows != [] {
      LiveRowsOfLive(rows[1..]);
    }
  }

  lemma {:induction false} LiveRowsAreRows(rows: seq<ChunkRow>)
    ensures forall r :: r in LiveRows(rows) ==> r in rows && !r.deleted
  {
    if rows != [] {
      LiveRowsAreRows(rows[1..]);
    }
  }

  /** Listing the rows of a live document gives exactly the rows stored for it. */
  lemma ListIsRows(env: Env, s: Store, d: DocumentId)
    requires env.Valid() && Invariant(env, s) && d in s.documents
    ensures forall r :: r in ListByDocument(s, d) ==> r.id.document == d
    ensures !s.documents[d].deleted ==> ListByDocument(s, d) == Rows(s, d)
  {
    assert DocumentBacked(env, s, d);
    LiveRowsAreRows(Rows(s, d));
    if !s.documents[d].deleted {
      assert Rows(s, d) != [] ==> OwnLiveRows(d, Rows(s, d));
      LiveRowsOfLive(Rows(s, d));
    }
  }
}
