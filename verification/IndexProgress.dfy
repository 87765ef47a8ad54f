/** That the pipeline gets its work done (worker/manager.go): with nothing failing, an upload ends indexed
    and a delete request ends deleted, from any point of any run; and what fails for good can be retried. */
module IndexProgress {
  import opened Options
  import opened Status
  import opened Chunker
  import opened IndexInvariant
  import opened IndexStatements
  import opened IndexStore
  import opened IndexWorker
  import opened IndexSystem
  import opened IndexOutbox

  /** The call arrives and its answer does. */
  const OK := Reply(Arrives, Permanent)

  /** A worker left to itself for n steps, none of which fails. */
  function Go(env: Env, s: Store, w: Worker, n: nat): (Store, Worker) {
    if n == 0 then (s, w)
    else
      var (s', w') := Go(env, s, w, n - 1);
      StepWorker(env, s', w', OK)
  }

  lemma OneMoreStep(env: Env, s: Store, w: Worker, n: nat, s1: Store, w1: Worker, s2: Store, w2: Worker)
    requires Go(env, s, w, n) == (s1, w1) && StepWorker(env, s1, w1, OK) == (s2, w2)
    ensures Go(env, s, w, n + 1) == (s2, w2)
  {
  }

  /** One step that is not the reading of the document. */
  lemma OneMoreCall(env: Env, s: Store, w: Worker, n: nat, s1: Store, w1: Worker, s2: Store, pc: Pc)
    requires Go(env, s, w, n) == (s1, w1) && w1.pc != AtRead && HandlerStep(env, s1, w1, OK) == (s2, pc)
    ensures Go(env, s, w, n + 1) == (s2, w1.(pc := pc))
  {
  }

  /** A worker whose task it has claimed, about to read the document, which is live. */
  ghost predicate Ready(s: Store, w: Worker, kind: TaskKind, status: DocumentStatus) {
    && w.pc == AtRead && w.subject == kind
    && w.message.task in s.tasks && s.tasks[w.message.task].status == Running
    && IsLive(s, w.message.document) && s.documents[w.message.document].status == status
  }

  function Done(s: Store, id: TaskId): Store
    requires id in s.tasks
  {
    s.(tasks := s.tasks[id := s.tasks[id].(status := Succeeded, lease := None)])
  }

  function FollowUp(w: Worker, s: Store): Task
    requires w.message.document in s.documents
  {
    Task(w.message.document, s.documents[w.message.document].user, NextKind(w.subject), Unset, Pending, 0, None)
  }

  /** The last two steps of parsing and chunking: the follow-up task is made, and the task is done. */
  function Handed(s: Store, w: Worker): Store
    requires w.message.task in s.tasks && w.message.document in s.documents
  {
    var next := Derived(w.message.task, NextKind(w.subject));
    Done(CreateTask(s, next, FollowUp(w, s)), w.message.task)
  }

  lemma EnqueueCall(env: Env, s: Store, w: Worker)
    requires w.pc == EnqueueNext && w.message.document in s.documents
    requires w.owner == s.documents[w.message.document].user
    ensures HandlerStep(env, s, w, OK)
         == (CreateTask(s, Derived(w.message.task, NextKind(w.subject)), FollowUp(w, s)), Finish)
  {
  }

  lemma FinishCall(env: Env, s: Store, w: Worker)
    requires w.pc == Finish && w.message.task in s.tasks && s.tasks[w.message.task].status == Running
    ensures HandlerStep(env, s, w, OK) == (Done(s, w.message.task), Stopped)
  {
  }

  lemma CreatedKeeps(s: Store, id: TaskId, task: Task, other: TaskId)
    requires other in s.tasks
    ensures other in CreateTask(s, id, task).tasks && CreateTask(s, id, task).tasks[other] == s.tasks[other]
  {
  }

  lemma HandsOver(env: Env, s: Store, w: Worker, n: nat, s1: Store, w1: Worker)
    requires Go(env, s, w, n) == (s1, w1) && w1.pc == EnqueueNext
    requires w1.message.task in s1.tasks && s1.tasks[w1.message.task].status == Running
    requires w1.message.document in s1.documents && w1.owner == s1.documents[w1.message.document].user
    ensures Go(env, s, w, n + 2) == (Handed(s1, w1), w1.(pc := Stopped))
  {
    var id, next := w1.message.task, Derived(w1.message.task, NextKind(w1.subject));
    var s2 := CreateTask(s1, next, FollowUp(w1, s1));
    CreatedKeeps(s1, next, FollowUp(w1, s1), id);
    EnqueueCall(env, s1, w1);
    OneMoreCall(env, s, w, n, s1, w1, s2, Finish);
    FinishCall(env, s2, w1.(pc := Finish));
    OneMoreCall(env, s, w, n + 1, s2, w1.(pc := Finish), Done(s2, id), Stopped);
  }

  function ParsedStore(env: Env, s: Store, d: DocumentId, mode: Mode): Store
    requires d in s.documents
  {
    var doc := s.documents[d];
    s.(documents := s.documents[d := doc.(status := Parsed, content := Some(env.parse(doc.file, mode)))])
  }

  lemma ReadsToParse(env: Env, s: Store, w: Worker)
    requires Ready(s, w, ParseTask, Uploaded)
    ensures var doc := s.documents[w.message.document];
            Go(env, s, w, 2) == (WithStatus(s, w.message.document, Parsing),
                                 w.(pc := ParseFile(doc.file), owner := doc.user))
  {
    var d := w.message.document;
    var doc := s.documents[d];
    var w1 := w.(pc := ParseMark(doc.file), owner := doc.user);
    OneMoreStep(env, s, w, 0, s, w, s, w1);
    OneMoreStep(env, s, w, 1, s, w1, WithStatus(s, d, Parsing), w1.(pc := ParseFile(doc.file)));
  }

  lemma Parses(env: Env, s: Store, w: Worker)
    requires Ready(s, w, ParseTask, Uploaded)
    ensures var d := w.message.document;
            Go(env, s, w, 5) == (ParsedStore(env, s, d, w.message.mode),
                                 w.(pc := EnqueueNext, owner := s.documents[d].user))
  {
    ReadsToParse(env, s, w);
    var d := w.message.document;
    var doc := s.documents[d];
    var parsed := env.parse(doc.file, w.message.mode);
    var s2, w2 := WithStatus(s, d, Parsing), w.(pc := ParseFile(doc.file), owner := doc.user);
    OneMoreStep(env, s, w, 2, s2, w2, s2, w2.(pc := ParseLog(parsed)));
    OneMoreStep(env, s, w, 3, s2, w2.(pc := ParseLog(parsed)), s2, w2.(pc := ParseComplete(parsed)));
    var s5 := ParsedStore(env, s, d, w.message.mode);
    assert CompleteParse(s2, d, parsed) == Applied(s5);
    OneMoreStep(env, s, w, 4, s2, w2.(pc := ParseComplete(parsed)), s5, w2.(pc := EnqueueNext));
  }

  /** An uploaded document is parsed, and the chunk task is made. */
  lemma ParseStage(env: Env, s: Store, w: Worker)
    requires Ready(s, w, ParseTask, Uploaded)
    ensures Go(env, s, w, 7).0 == Handed(ParsedStore(env, s, w.message.document, w.message.mode), w)
  {
    Parses(env, s, w);
    HandsOver(env, s, w, 5, ParsedStore(env, s, w.message.document, w.message.mode),
              w.(pc := EnqueueNext, owner := s.documents[w.message.document].user));
  }

  function ChunkedStore(s: Store, d: DocumentId, rows: seq<ChunkRow>): Store
    requires d in s.documents
  {
    WithStatus(s, d, Chunked).(chunks := s.chunks[d := rows])
  }

  /** What the chunker makes of the stored content, for the document itself. */
  ghost predicate Chunkable(env: Env, s: Store, d: DocumentId, rows: seq<ChunkRow>) {
    && d in s.documents && s.documents[d].content.Some?
    && env.build(d, s.documents[d].content.value) == Some(rows) && OwnLiveRows(d, rows)
  }

  lemma ReadsToChunk(env: Env, s: Store, w: Worker, rows: seq<ChunkRow>)
    requires Ready(s, w, ChunkTask, Parsed) && Chunkable(env, s, w.message.document, rows)
    ensures Go(env, s, w, 3) == (WithStatus(s, w.message.document, Chunking),
                                 w.(pc := ChunkReplace(rows), owner := s.documents[w.message.document].user))
  {
    var d := w.message.document;
    var doc := s.documents[d];
    var w1 := w.(pc := ChunkMark(doc.content), owner := doc.user);
    OneMoreStep(env, s, w, 0, s, w, s, w1);
    var s2 := WithStatus(s, d, Chunking);
    OneMoreStep(env, s, w, 1, s, w1, s2, w1.(pc := ChunkBuild(doc.content)));
    OneMoreStep(env, s, w, 2, s2, w1.(pc := ChunkBuild(doc.content)), s2, w1.(pc := ChunkReplace(rows)));
  }

  lemma ReplaceCall(env: Env, s: Store, w: Worker, rows: seq<ChunkRow>)
    requires w.pc == ChunkReplace(rows) && rows != [] && rows[0].id.document == w.message.document
    ensures HandlerStep(env, s, w, OK) == (s.(chunks := s.chunks[w.message.document := rows]), ChunkDone)
  {
  }

  lemma ChunkedCall(env: Env, s: Store, w: Worker)
    requires w.pc == ChunkDone && IsLive(s, w.message.document)
    requires s.documents[w.message.document].status == Chunking
    ensures HandlerStep(env, s, w, OK) == (WithStatus(s, w.message.document, Chunked), EnqueueNext)
  {
  }

  lemma Chunks(env: Env, s: Store, w: Worker, rows: seq<ChunkRow>)
    requires Ready(s, w, ChunkTask, Parsed) && Chunkable(env, s, w.message.document, rows)
    ensures var d := w.message.document;
            Go(env, s, w, 5) == (ChunkedStore(s, d, rows), w.(pc := EnqueueNext, owner := s.documents[d].user))
  {
    ReadsToChunk(env, s, w, rows);
    var d := w.message.document;
    var s3, w3 := WithStatus(s, d, Chunking), w.(pc := ChunkReplace(rows), owner := s.documents[d].user);
    var s4, w4 := s3.(chunks := s3.chunks[d := rows]), w3.(pc := ChunkDone);
    assert rows[0] in rows;
    ReplaceCall(env, s3, w3, rows);
    OneMoreCall(env, s, w, 3, s3, w3, s4, ChunkDone);
    ChunkedCall(env, s4, w4);
    assert WithStatus(s4, d, Chunked) == ChunkedStore(s, d, rows);
    OneMoreCall(env, s, w, 4, s4, w4, ChunkedStore(s, d, rows), EnqueueNext);
  }

  /** A parsed document is chunked, its rows are stored, and the embedding task is made. */
  lemma ChunkStage(env: Env, s: Store, w: Worker, rows: seq<ChunkRow>)
    requires Ready(s, w, ChunkTask, Parsed) && Chunkable(env, s, w.message.document, rows)
    ensures Go(env, s, w, 7).0 == Handed(ChunkedStore(s, w.message.document, rows), w)
  {
    Chunks(env, s, w, rows);
    HandsOver(env, s, w, 5, ChunkedStore(s, w.message.document, rows),
              w.(pc := EnqueueNext, owner := s.documents[w.message.document].user));
  }

  function IndexedStore(s: Store, d: DocumentId): Store
    requires d in s.documents
  {
    WithStatus(s, d, Indexed).(vectors := s.vectors + IdsOf(ListByDocument(s, d)))
  }

  lemma ReadsToEmbed(env: Env, s: Store, w: Worker)
    requires Ready(s, w, EmbedTask, Chunked) && ListByDocument(s, w.message.document) != []
    ensures var rows := ListByDocument(s, w.message.document);
            Go(env, s, w, 3) == (WithStatus(s, w.message.document, Embedding),
                                 w.(pc := EmbedVectors(rows), owner := s.documents[w.message.document].user))
  {
    var d := w.message.document;
    var rows := ListByDocument(s, d);
    var w1 := w.(pc := EmbedMark, owner := s.documents[d].user);
    OneMoreStep(env, s, w, 0, s, w, s, w1);
    var s2 := WithStatus(s, d, Embedding);
    OneMoreStep(env, s, w, 1, s, w1, s2, w1.(pc := EmbedList));
    assert ListByDocument(s2, d) == rows;
    OneMoreStep(env, s, w, 2, s2, w1.(pc := EmbedList), s2, w1.(pc := EmbedVectors(rows)));
  }

  lemma UpsertCall(env: Env, s: Store, w: Worker, rows: seq<ChunkRow>)
    requires w.pc == EmbedUpsert(rows)
    ensures HandlerStep(env, s, w, OK) == (s.(vectors := s.vectors + IdsOf(rows)), EmbedDone)
  {
  }

  lemma IndexedCall(env: Env, s: Store, w: Worker)
    requires w.pc == EmbedDone && IsLive(s, w.message.document)
    requires s.documents[w.message.document].status == Embedding
    ensures HandlerStep(env, s, w, OK) == (WithStatus(s, w.message.document, Indexed), Finish)
  {
  }

  lemma Embeds(env: Env, s: Store, w: Worker)
    requires Ready(s, w, EmbedTask, Chunked) && ListByDocument(s, w.message.document) != []
    ensures var d := w.message.document;
            Go(env, s, w, 6) == (IndexedStore(s, d), w.(pc := Finish, owner := s.documents[d].user))
  {
    ReadsToEmbed(env, s, w);
    var d := w.message.document;
    var rows := ListByDocument(s, d);
    var s3, w3 := WithStatus(s, d, Embedding), w.(pc := EmbedVectors(rows), owner := s.documents[d].user);
    var w4 := w3.(pc := EmbedUpsert(rows));
    OneMoreCall(env, s, w, 3, s3, w3, s3, EmbedUpsert(rows));
    var s5 := s3.(vectors := s3.vectors + IdsOf(rows));
    UpsertCall(env, s3, w4, rows);
    OneMoreCall(env, s, w, 4, s3, w4, s5, EmbedDone);
    IndexedCall(env, s5, w4.(pc := EmbedDone));
    assert WithStatus(s5, d, Indexed) == IndexedStore(s, d);
    OneMoreCall(env, s, w, 5, s5, w4.(pc := EmbedDone), IndexedStore(s, d), Finish);
  }

  lemma Finishes(env: Env, s: Store, w: Worker, n: nat, s1: Store, w1: Worker)
    requires Go(env, s, w, n) == (s1, w1) && w1.pc == Finish
    requires w1.message.task in s1.tasks && s1.tasks[w1.message.task].status == Running
    ensures Go(env, s, w, n + 1) == (Done(s1, w1.message.task), w1.(pc := Stopped))
  {
    OneMoreStep(env, s, w, n, s1, w1, Done(s1, w1.message.task), w1.(pc := Stopped));
  }

  /** The rows of a chunked document get their vectors, and it is indexed. */
  lemma EmbedStage(env: Env, s: Store, w: Worker)
    requires Ready(s, w, EmbedTask, Chunked) && ListByDocument(s, w.message.document) != []
    ensures Go(env, s, w, 7).0 == Done(IndexedStore(s, w.message.document), w.message.task)
  {
    Embeds(env, s, w);
    Finishes(env, s, w, 6, IndexedStore(s, w.message.document),
             w.(pc := Finish, owner := s.documents[w.message.document].user));
  }

  function DeletedStore(s: Store, d: DocumentId): Store
    requires d in s.documents
  {
    s.(documents := s.documents[d := s.documents[d].(deleted := true)],
       chunks := s.chunks[d := MarkDeleted(Rows(s, d))], vectors := DeleteVectorsOf(s, d).vectors)
  }

  lemma Deletes(env: Env, s: Store, w: Worker)
    requires Ready(s, w, DeleteTask, Deleting)
    ensures var d := w.message.document;
            Go(env, s, w, 5) == (DeletedStore(s, d), w.(pc := Finish, owner := s.documents[d].user))
  {
    var d := w.message.document;
    var w1 := w.(pc := DropVectors, owner := s.documents[d].user);
    OneMoreStep(env, s, w, 0, s, w, s, w1);
    var s2 := DeleteVectorsOf(s, d);
    OneMoreStep(env, s, w, 1, s, w1, s2, w1.(pc := VerifyVectors));
    assert !HasVectors(s2, d);
    OneMoreStep(env, s, w, 2, s2, w1.(pc := VerifyVectors), s2, w1.(pc := RemoveObject));
    OneMoreStep(env, s, w, 3, s2, w1.(pc := RemoveObject), s2, w1.(pc := DeleteDone));
    assert CompleteDelete(s2, d) == Applied(DeletedStore(s, d));
    OneMoreStep(env, s, w, 4, s2, w1.(pc := DeleteDone), DeletedStore(s, d), w1.(pc := Finish));
  }

  /** A document in deletion loses its vectors and its rows, and is deleted. */
  lemma DeleteStage(env: Env, s: Store, w: Worker)
    requires Ready(s, w, DeleteTask, Deleting)
    ensures Go(env, s, w, 6).0 == Done(DeletedStore(s, w.message.document), w.message.task)
  {
    Deletes(env, s, w);
    Finishes(env, s, w, 5, DeletedStore(s, w.message.document),
             w.(pc := Finish, owner := s.documents[w.message.document].user));
  }

  lemma {:induction false} NoneLive(rows: seq<ChunkRow>)
    requires forall i :: 0 <= i < |rows| ==> rows[i].deleted
    ensures LiveRows(rows) == []
  {
    if rows != [] {
      NoneLive(rows[1..]);
    }
  }

  /** Nothing of the document is left: no row is listed, although each is still stored, and no vector. */
  ghost predicate Gone(s: Store, after: Store, d: DocumentId) {
    && d in after.documents && after.documents[d].deleted
    && ListByDocument(after, d) == [] && VectorsOf(after, d) == {}
    && |Rows(after, d)| == |Rows(s, d)|
    && (forall i :: 0 <= i < |Rows(s, d)| ==> Rows(after, d)[i].id == Rows(s, d)[i].id)
  }

  lemma DeletedIsGone(s: Store, d: DocumentId)
    requires d in s.documents
    ensures Gone(s, DeletedStore(s, d), d)
  {
    NoneLive(Rows(DeletedStore(s, d), d));
  }

  // ----- After a failure -----

  function FailedStore(s: Store, d: DocumentId, id: TaskId, status: DocumentStatus): Store
    requires d in s.documents && id in s.tasks
  {
    WithStatus(s, d, status).(tasks := s.tasks[id := s.tasks[id].(status := Errored, lease := None)])
  }

  /** The task runs, and its document is live and at a status a stage may fail from. */
  ghost predicate MayFailFrom(s: Store, w: Worker) {
    && w.message.task in s.tasks && s.tasks[w.message.task].status == Running
    && IsLive(s, w.message.document)
    && (if w.subject == DeleteTask then s.documents[w.message.document].status == Deleting
        else s.documents[w.message.document].status in {Uploaded, Parsing, Parsed, Chunking, Chunked, Embedding})
  }

  lemma FailDocumentCall(env: Env, s: Store, w: Worker)
    requires MayFailFrom(s, w) && w.pc == FailDocument
    ensures HandlerStep(env, s, w, OK) == (WithStatus(s, w.message.document, FailedStatus(w.subject)), FailTask)
  {
  }

  lemma FailTaskCall(env: Env, s: Store, w: Worker)
    requires w.pc == FailTask && w.message.task in s.tasks && s.tasks[w.message.task].status == Running
    ensures var task := s.tasks[w.message.task].(status := Errored, lease := None);
            HandlerStep(env, s, w, OK) == (s.(tasks := s.tasks[w.message.task := task]), Stopped)
  {
  }

  /** From the decision to give up on. */
  lemma FailsOn(env: Env, s: Store, w: Worker, w1: Worker)
    requires MayFailFrom(s, w) && w1 == w.(pc := FailDocument) && Go(env, s, w, 1) == (s, w1)
    ensures Go(env, s, w, 3).0 == FailedStore(s, w.message.document, w.message.task, FailedStatus(w.subject))
  {
    var d, id := w.message.document, w.message.task;
    var s2, w2 := WithStatus(s, d, FailedStatus(w.subject)), w.(pc := FailTask);
    FailDocumentCall(env, s, w1);
    OneMoreCall(env, s, w, 1, s, w1, s2, FailTask);
    FailTaskCall(env, s2, w2);
    OneMoreCall(env, s, w, 2, s2, w2, FailedStore(s, d, id, FailedStatus(w.subject)), Stopped);
  }

  lemma GivesUp(env: Env, s: Store, w: Worker)
    requires w.pc == Schedule(Permanent) || (w.pc == Schedule(Retryable) && !ScheduleRetry(s, w.message.task).Applied?)
    ensures Go(env, s, w, 1) == (s, w.(pc := FailDocument))
  {
    assert HandlerStep(env, s, w, OK) == (s, FailDocument);
    OneMoreCall(env, s, w, 0, s, w, s, FailDocument);
  }

  /** The status a document has while a stage works on it, and the one the stage starts from. */
  ghost predicate Working(kind: TaskKind, status: DocumentStatus, start: DocumentStatus) {
    match kind
    case ParseTask => status == Parsing && start == Uploaded
    case ChunkTask => status == Chunking && start == Parsed
    case EmbedTask => status == Embedding && start == Chunked
    case DeleteTask => false
  }

  function RescheduledStore(s: Store, d: DocumentId, id: TaskId, status: DocumentStatus): Store
    requires d in s.documents && id in s.tasks
  {
    var task := s.tasks[id].(status := Pending, retries := s.tasks[id].retries + 1, lease := None);
    WithStatus(s, d, status).(tasks := s.tasks[id := task])
  }

  lemma ScheduleCall(env: Env, s: Store, w: Worker)
    requires w.pc == Schedule(Retryable) && w.subject != DeleteTask && ScheduleRetry(s, w.message.task).Applied?
    ensures HandlerStep(env, s, w, OK) == (ScheduleRetry(s, w.message.task).store, ResetDocument)
  {
  }

  lemma ResetCall(env: Env, s: Store, w: Worker, start: DocumentStatus)
    requires w.pc == ResetDocument && IsLive(s, w.message.document)
    requires Working(w.subject, s.documents[w.message.document].status, start)
    ensures HandlerStep(env, s, w, OK) == (WithStatus(s, w.message.document, start), Stopped)
  {
  }

  lemma Reschedules(env: Env, s: Store, w: Worker, start: DocumentStatus)
    requires w.pc == Schedule(Retryable)
    requires w.message.task in s.tasks && s.tasks[w.message.task].status == Running
    requires s.tasks[w.message.task].retries < 3
    requires IsLive(s, w.message.document) && Working(w.subject, s.documents[w.message.document].status, start)
    ensures Go(env, s, w, 2) == (RescheduledStore(s, w.message.document, w.message.task, start), w.(pc := Stopped))
  {
    var d, id := w.message.document, w.message.task;
    var s1, w1 := ScheduleRetry(s, id).store, w.(pc := ResetDocument);
    ScheduleCall(env, s, w);
    OneMoreCall(env, s, w, 0, s, w, s1, ResetDocument);
    ResetCall(env, s1, w1, start);
    OneMoreCall(env, s, w, 1, s1, w1, RescheduledStore(s, d, id, start), Stopped);
  }

  /** A stage that fails for now, while it works on its document, is put back to where it started, up to three
      times; after that it fails for good. */
  lemma FailureIsRescheduled(env: Env, s: Store, w: Worker, start: DocumentStatus)
    requires w.pc == Schedule(Retryable)
    requires w.message.task in s.tasks && s.tasks[w.message.task].status == Running
    requires IsLive(s, w.message.document) && Working(w.subject, s.documents[w.message.document].status, start)
    ensures var d, id := w.message.document, w.message.task;
            if s.tasks[id].retries < 3 then Go(env, s, w, 2) == (RescheduledStore(s, d, id, start), w.(pc := Stopped))
            else Go(env, s, w, 3).0 == FailedStore(s, d, id, Failed)
  {
    if s.tasks[w.message.task].retries < 3 {
      Reschedules(env, s, w, start);
    } else {
      GivesUp(env, s, w);
      FailsOn(env, s, w, w.(pc := FailDocument));
    }
  }

  lemma FailedIsRetried(s: Store, id: TaskId, d: DocumentId)
    requires id in s.tasks && s.tasks[id].document == d && IsLive(s, d) && s.documents[d].user == s.tasks[id].user
    ensures Retry(FailedStore(s, d, id, FailedStatus(s.tasks[id].kind)), id, s.tasks[id].user).Applied?
  {
  }

  /** A stage that fails for good, at any point at which its document may fail, leaves the document failed
      and the task in error; and its owner can have it retried. */
  lemma FailureCanBeRetried(env: Env, s: Store, w: Worker)
    requires Invariant(env, s) && Matches(s, w.subject, w.message)
    requires w.pc == Schedule(Permanent) && MayFailFrom(s, w)
    ensures var s' := Go(env, s, w, 3).0;
            && s' == FailedStore(s, w.message.document, w.message.task, FailedStatus(w.subject))
            && Retry(s', w.message.task, s.tasks[w.message.task].user).Applied?
  {
    GivesUp(env, s, w);
    FailsOn(env, s, w, w.(pc := FailDocument));
    assert TaskShape(s, w.message.task);
    FailedIsRetried(s, w.message.task, w.message.document);
  }

  // ----- Stages of the whole system -----

  function Advances(n: nat, k: nat): (actions: seq<Action>)
    ensures |actions| == k && forall i :: 0 <= i < k ==> actions[i] == Advance(n, OK)
  {
    seq(k, i => Advance(n, OK))
  }

  lemma {:induction false} AdvancesAreGo(env: Env, sys: System, n: nat, k: nat)
    requires n in sys.workers
    ensures var (s, w) := Go(env, sys.store, sys.workers[n], k);
            Execute(env, sys, Advances(n, k)) == sys.(store := s, workers := sys.workers[n := w])
  {
    if k == 0 {
      assert sys.workers[n := sys.workers[n]] == sys.workers;
    } else {
      AdvancesAreGo(env, sys, n, k - 1);
      assert Advances(n, k) == Advances(n, k - 1) + [Advance(n, OK)];
      ExecuteConcat(env, sys, Advances(n, k - 1), [Advance(n, OK)]);
      var before := Execute(env, sys, Advances(n, k - 1));
      assert Execute(env, before, [Advance(n, OK)]) == Perform(env, before, Advance(n, OK));
      assert before.workers[n := Go(env, sys.store, sys.workers[n], k).1]
          == sys.workers[n := Go(env, sys.store, sys.workers[n], k).1];
    }
  }

  /** A pending task of a live document whose message is due, and a worker number that is free. */
  ghost predicate StageReady(sys: System, id: TaskId, kind: TaskKind, d: DocumentId, status: DocumentStatus, n: nat) {
    && n !in sys.workers && id in sys.store.tasks && OutboxDue(sys.store, id)
    && sys.store.tasks[id].kind == kind && sys.store.tasks[id].document == d && sys.store.tasks[id].status == Pending
    && IsLive(sys.store, d) && sys.store.documents[d].status == status
  }

  /** The store once the task is claimed: its row is locked, the task runs, and the rest is as it was. */
  ghost predicate Taken(s: Store, taken: Store, id: TaskId) {
    && taken == s.(outbox := taken.outbox, tasks := taken.tasks)
    && taken.outbox.Keys == s.outbox.Keys
    && id in s.tasks && id in taken.tasks && taken.tasks == s.tasks[id := taken.tasks[id]]
    && taken.tasks[id] == s.tasks[id].(status := Running, lease := taken.tasks[id].lease)
  }

  function StageActions(s: Store, id: TaskId, n: nat, k: nat): seq<Action>
    requires id in s.tasks
  {
    Start(s, id, n) + (Advances(n, k) + [Crash(n)])
  }

  lemma StartTakes(env: Env, sys: System, id: TaskId, n: nat)
    requires OutboxPaired(sys.store) && OutboxDue(sys.store, id) && Claimable(sys.store, id) && n !in sys.workers
    ensures id in sys.store.tasks
    ensures var started := Execute(env, sys, Start(sys.store, id, n));
            && Taken(sys.store, started.store, id)
            && started.workers == sys.workers[n := Worker(sys.store.tasks[id].kind, Payload(id, sys.store.tasks[id]), 0,
                                                          AtRead)]
  {
    var own, last := Own(sys.store, id), Advance(n, Reply(Arrives, Permanent));
    FourActions(env, sys, ClaimOutbox(id), Publish(own), Deliver(n, own), last);
    ClaimReads(env, sys, id);
    var claimed := Perform(env, sys, ClaimOutbox(id));
    var taken := Perform(env, Perform(env, claimed, Publish(own)), Deliver(n, own));
    assert taken.store == claimed.store;
    assert taken.workers == sys.workers[n := Worker(own.subject, own.message, 0, AtClaim)];
    var o := Claim(taken.store, id, env.lease);
    assert StepWorker(env, taken.store, taken.workers[n], Reply(Arrives, Permanent))
        == (o.store, taken.workers[n].(pc := AtRead));
  }

  lemma RestIsGo(env: Env, started: System, n: nat, k: nat)
    requires n in started.workers
    ensures var final := Execute(env, started, Advances(n, k) + [Crash(n)]);
            final.store == Go(env, started.store, started.workers[n], k).0 && n !in final.workers
  {
    AdvancesAreGo(env, started, n, k);
    ExecuteConcat(env, started, Advances(n, k), [Crash(n)]);
    var done := Execute(env, started, Advances(n, k));
    assert Execute(env, done, [Crash(n)]) == Perform(env, done, Crash(n));
  }

  lemma TakenIsReady(sys: System, id: TaskId, kind: TaskKind, d: DocumentId, status: DocumentStatus, n: nat,
                     taken: Store)
    requires StageReady(sys, id, kind, d, status, n) && Taken(sys.store, taken, id)
    ensures Ready(taken, Worker(kind, Payload(id, sys.store.tasks[id]), 0, AtRead), kind, status)
  {
  }

  ghost predicate EndsIn(env: Env, final: System, s: Store, n: nat) {
    SystemInvariant(env, final) && final.store == s && n !in final.workers
  }

  /** A stage whose worker takes k steps without a failure and then stops. */
  lemma StageRuns(env: Env, sys: System, id: TaskId, kind: TaskKind, d: DocumentId, status: DocumentStatus, n: nat,
                  k: nat) returns (taken: Store, w: Worker)
    requires env.Valid() && SystemInvariant(env, sys) && StageReady(sys, id, kind, d, status, n)
    ensures Taken(sys.store, taken, id) && Ready(taken, w, kind, status) && OutboxPaired(taken)
    ensures w.message == Payload(id, sys.store.tasks[id])
    ensures EndsIn(env, Execute(env, sys, StageActions(sys.store, id, n, k)), Go(env, taken, w, k).0, n)
  {
    StartTakes(env, sys, id, n);
    var start, rest := Start(sys.store, id, n), Advances(n, k) + [Crash(n)];
    var started := Execute(env, sys, start);
    taken, w := started.store, started.workers[n];
    TakenIsReady(sys, id, kind, d, status, n, taken);
    RunKeeps(env, sys, start);
    RunKeeps(env, sys, StageActions(sys.store, id, n, k));
    ExecuteConcat(env, sys, start, rest);
    RestIsGo(env, started, n, k);
  }

  ghost predicate OthersStay(s: Store, s': Store, id: TaskId) {
    forall other :: other in s.tasks && other != id ==> other in s'.tasks && s'.tasks[other] == s.tasks[other]
  }

  lemma HandedIsReady(s: Store, w: Worker, child: TaskId)
    requires OutboxPaired(s) && w.message.task in s.tasks && w.message.document in s.documents
    requires child == Derived(w.message.task, NextKind(w.subject)) && child !in s.tasks
    ensures var h := Handed(s, w);
            && h == s.(outbox := h.outbox, tasks := h.tasks)
            && h.tasks.Keys == s.tasks.Keys + {child} && OthersStay(s, h, w.message.task)
            && h.tasks[child] == FollowUp(w, s) && OutboxDue(h, child)
            && h.tasks[w.message.task].status == Succeeded
  {
    FollowUpDispatches(s, child, FollowUp(w, s));
  }

  /** The stage is over: its task succeeded, and the follow-up stage is ready. */
  ghost predicate HandedOn(sys: System, final: System, id: TaskId, kind: TaskKind, d: DocumentId,
                           status: DocumentStatus, n: nat)
  {
    var child := Derived(id, kind);
    && StageReady(final, child, kind, d, status, n)
    && id in final.store.tasks && final.store.tasks[id].status == Succeeded
    && final.store.tasks.Keys == sys.store.tasks.Keys + {child} && OthersStay(sys.store, final.store, id)
  }

  /** `worked` is the store after the stage's own work, before it is handed on. */
  lemma HandsOn(sys: System, taken: Store, worked: Store, w: Worker, final: System, id: TaskId, kind: TaskKind,
                d: DocumentId, status: DocumentStatus, n: nat)
    requires Taken(sys.store, taken, id) && OutboxPaired(worked)
    requires worked.tasks == taken.tasks && IsLive(worked, d) && worked.documents[d].status == status
    requires w.message.task == id && w.message.document == d && NextKind(w.subject) == kind
    requires Derived(id, kind) !in sys.store.tasks
    requires final.store == Handed(worked, w) && n !in final.workers
    ensures HandedOn(sys, final, id, kind, d, status, n)
  {
    HandedIsReady(worked, w, Derived(id, kind));
  }

  lemma ParseRuns(env: Env, sys: System, id: TaskId, d: DocumentId, n: nat) returns (more: seq<Action>)
    requires env.Valid() && SystemInvariant(env, sys) && StageReady(sys, id, ParseTask, d, Uploaded, n)
    requires Derived(id, ChunkTask) !in sys.store.tasks
    ensures var s, final := sys.store, Execute(env, sys, more);
            && SystemInvariant(env, final) && HandedOn(sys, final, id, ChunkTask, d, Parsed, n)
            && final.store.documents[d].content == Some(env.parse(s.documents[d].file, s.tasks[id].mode))
  {
    more := StageActions(sys.store, id, n, 7);
    var taken, w := StageRuns(env, sys, id, ParseTask, d, Uploaded, n, 7);
    ParseStage(env, taken, w);
    var parsed := ParsedStore(env, taken, d, w.message.mode);
    assert OutboxPaired(parsed);
    HandsOn(sys, taken, parsed, w, Execute(env, sys, more), id, ChunkTask, d, Parsed, n);
  }

  lemma ChunkedIsPaired(s: Store, d: DocumentId, rows: seq<ChunkRow>)
    requires OutboxPaired(s) && IsLive(s, d) && OwnLiveRows(d, rows)
    ensures var chunked := ChunkedStore(s, d, rows);
            && OutboxPaired(chunked) && chunked.tasks == s.tasks && chunked.documents[d].status == Chunked
            && IsLive(chunked, d) && ListByDocument(chunked, d) == rows
  {
    LiveRowsOfLive(rows);
  }

  lemma ChunkRuns(env: Env, sys: System, id: TaskId, d: DocumentId, n: nat, rows: seq<ChunkRow>)
    returns (more: seq<Action>)
    requires env.Valid() && SystemInvariant(env, sys) && StageReady(sys, id, ChunkTask, d, Parsed, n)
    requires Chunkable(env, sys.store, d, rows) && Derived(id, EmbedTask) !in sys.store.tasks
    ensures var final := Execute(env, sys, more);
            && SystemInvariant(env, final) && HandedOn(sys, final, id, EmbedTask, d, Chunked, n)
            && ListByDocument(final.store, d) == rows
  {
    more := StageActions(sys.store, id, n, 7);
    var taken, w := StageRuns(env, sys, id, ChunkTask, d, Parsed, n, 7);
    ChunkStage(env, taken, w, rows);
    var chunked := ChunkedStore(taken, d, rows);
    ChunkedIsPaired(taken, d, rows);
    HandsOn(sys, taken, chunked, w, Execute(env, sys, more), id, EmbedTask, d, Chunked, n);
    assert Handed(chunked, w).chunks == chunked.chunks;
  }

  lemma IndexedIs(s: Store, taken: Store, id: TaskId, d: DocumentId)
    requires Taken(s, taken, id) && IsLive(s, d)
    ensures var final := Done(IndexedStore(taken, d), id);
            && IsLive(final, d) && final.documents[d].status == Indexed
            && final.tasks[id].status == Succeeded && OthersStay(s, final, id)
  {
  }

  lemma EmbedRuns(env: Env, sys: System, id: TaskId, d: DocumentId, n: nat) returns (more: seq<Action>)
    requires env.Valid() && SystemInvariant(env, sys) && StageReady(sys, id, EmbedTask, d, Chunked, n)
    requires ListByDocument(sys.store, d) != []
    ensures var final := Execute(env, sys, more).store;
            && IsLive(final, d) && final.documents[d].status == Indexed
            && id in final.tasks && final.tasks[id].status == Succeeded && OthersStay(sys.store, final, id)
  {
    more := StageActions(sys.store, id, n, 7);
    var taken, w := StageRuns(env, sys, id, EmbedTask, d, Chunked, n, 7);
    assert ListByDocument(taken, d) == ListByDocument(sys.store, d);
    EmbedStage(env, taken, w);
    IndexedIs(sys.store, taken, id, d);
  }

  lemma DoneIsGone(s: Store, taken: Store, id: TaskId, d: DocumentId)
    requires Taken(s, taken, id) && d in s.documents
    ensures var final := Done(DeletedStore(taken, d), id); Gone(s, final, d) && HasSucceeded(final, id)
  {
    DeletedIsGone(s, d);
    assert Rows(taken, d) == Rows(s, d);
  }

  lemma DeleteRuns(env: Env, sys: System, id: TaskId, d: DocumentId, n: nat) returns (more: seq<Action>)
    requires env.Valid() && SystemInvariant(env, sys) && StageReady(sys, id, DeleteTask, d, Deleting, n)
    ensures var final := Execute(env, sys, more).store; Gone(sys.store, final, d) && HasSucceeded(final, id)
  {
    more := StageActions(sys.store, id, n, 6);
    var taken, w := StageRuns(env, sys, id, DeleteTask, d, Deleting, n, 6);
    DeleteStage(env, taken, w);
    DoneIsGone(sys.store, taken, id, d);
  }

  lemma NoOrphans(env: Env, s: Store, id: TaskId, kind: TaskKind)
    requires Invariant(env, s)
    ensures Derived(id, kind) in s.tasks ==> id in s.tasks
  {
    if Derived(id, kind) in s.tasks {
      assert TaskShape(s, Derived(id, kind));
    }
  }

  // ----- Main results -----

  ghost predicate HasSucceeded(s: Store, id: TaskId) {
    id in s.tasks && s.tasks[id].status == Succeeded
  }

  lemma LastStages(env: Env, sys: System, id: TaskId, d: DocumentId, n: nat, rows: seq<ChunkRow>)
    returns (more: seq<Action>)
    requires env.Valid() && SystemInvariant(env, sys) && StageReady(sys, id, ChunkTask, d, Parsed, n)
    requires Chunkable(env, sys.store, d, rows) && Derived(id, EmbedTask) !in sys.store.tasks
    ensures var final := Execute(env, sys, more).store;
            && IsLive(final, d) && final.documents[d].status == Indexed
            && HasSucceeded(final, id) && HasSucceeded(final, Derived(id, EmbedTask))
            && OthersStay(sys.store, final, id)
  {
    var first := ChunkRuns(env, sys, id, d, n, rows);
    var chunked := Execute(env, sys, first);
    var second := EmbedRuns(env, chunked, Derived(id, EmbedTask), d, n);
    more := first + second;
    ExecuteConcat(env, sys, first, second);
  }

  lemma StaysSucceeded(s: Store, s': Store, id: TaskId, other: TaskId)
    requires HasSucceeded(s, id) && OthersStay(s, s', other) && id != other
    ensures HasSucceeded(s', id)
  {
  }

  /** What the first stage leaves for the second. */
  lemma ParsedIsChunkable(env: Env, sys: System, parsed: System, id: TaskId, d: DocumentId, n: nat,
                          rows: seq<ChunkRow>)
    requires env.Valid() && HandedOn(sys, parsed, id, ChunkTask, d, Parsed, n)
    requires parsed.store.documents[d].content.Some?
    requires env.build(d, parsed.store.documents[d].content.value) == Some(rows)
    requires Derived(Derived(id, ChunkTask), EmbedTask) !in sys.store.tasks
    ensures Chunkable(env, parsed.store, d, rows) && HasSucceeded(parsed.store, id)
    ensures Derived(Derived(id, ChunkTask), EmbedTask) !in parsed.store.tasks
  {
  }

  lemma ThreeStages(env: Env, sys: System, id: TaskId, d: DocumentId, n: nat, rows: seq<ChunkRow>)
    returns (more: seq<Action>)
    requires env.Valid() && SystemInvariant(env, sys) && StageReady(sys, id, ParseTask, d, Uploaded, n)
    requires Derived(id, ChunkTask) !in sys.store.tasks
    requires Derived(Derived(id, ChunkTask), EmbedTask) !in sys.store.tasks
    requires env.build(d, env.parse(sys.store.documents[d].file, sys.store.tasks[id].mode)) == Some(rows)
    ensures AllSucceeded(Execute(env, sys, more).store, id, d)
  {
    var chunk := Derived(id, ChunkTask);
    var first := ParseRuns(env, sys, id, d, n);
    var parsed := Execute(env, sys, first);
    ParsedIsChunkable(env, sys, parsed, id, d, n, rows);
    var second := LastStages(env, parsed, chunk, d, n, rows);
    more := first + second;
    ExecuteConcat(env, sys, first, second);
    StaysSucceeded(parsed.store, Execute(env, parsed, second).store, id, chunk);
  }

  /** The document is indexed, and its three tasks have succeeded. */
  ghost predicate AllSucceeded(s: Store, id: TaskId, d: DocumentId) {
    var chunk := Derived(id, ChunkTask);
    && IsLive(s, d) && s.documents[d].status == Indexed
    && HasSucceeded(s, id) && HasSucceeded(s, chunk) && HasSucceeded(s, Derived(chunk, EmbedTask))
  }

  lemma UploadIsReady(env: Env, sys: System, d: DocumentId, user: UserId, file: string, k: nat, mode: Mode, n: nat)
    requires env.Valid() && SystemInvariant(env, sys)
    requires d !in sys.store.documents && Fresh(k) !in sys.store.tasks && n !in sys.workers
    ensures var sys' := Perform(env, sys, Upload(d, user, file, k, mode));
            && SystemInvariant(env, sys') && StageReady(sys', Fresh(k), ParseTask, d, Uploaded, n)
            && sys'.store.documents[d].file == file && sys'.store.tasks[Fresh(k)].mode == mode
            && sys'.store.tasks.Keys == sys.store.tasks.Keys + {Fresh(k)}
  {
    EveryActionKeeps(env, sys, Upload(d, user, file, k, mode));
    UploadDispatches(sys.store, d, user, file, Fresh(k), mode);
  }

  lemma UploadStays(env: Env, sys: System, more: seq<Action>, id: TaskId, d: DocumentId)
    requires env.Valid() && SystemInvariant(env, sys) && IsParseTaskOf(sys.store, id, d) && d in sys.store.documents
    ensures var s := Execute(env, sys, more).store;
            && IsParseTaskOf(s, id, d) && d in s.documents && s.documents[d].file == sys.store.documents[d].file
            && s.tasks[id].mode == sys.store.tasks[id].mode
  {
    RunKeeps(env, sys, more);
    var s := Execute(env, sys, more).store;
    assert DocumentEvolves(sys.store, s, d) && TaskEvolves(sys.store, s, id);
  }

  /** An upload can always be indexed.  At any point of any run, a new upload whose file the chunker has
      something to make of can go on, with nothing failing, to be indexed: its three tasks succeed, and its
      rows and vectors are exactly those of its file. */
  lemma UploadCanBeIndexed(env: Env, actions: seq<Action>, d: DocumentId, user: UserId, file: string, k: nat,
                           mode: Mode, n: nat) returns (more: seq<Action>)
    requires env.Valid() && env.build(d, env.parse(file, mode)).Some?
    requires d !in Reached(env, actions).documents && Fresh(k) !in Reached(env, actions).tasks
    requires n !in Execute(env, INITIAL, actions).workers
    ensures var s := Reached(env, actions + ([Upload(d, user, file, k, mode)] + more));
            && AllSucceeded(s, Fresh(k), d)
            && Some(ListByDocument(s, d)) == env.build(d, env.parse(file, mode))
            && VectorsOf(s, d) == IdsOf(ListByDocument(s, d))
  {
    var upload := Upload(d, user, file, k, mode);
    var sys := Execute(env, INITIAL, actions);
    RunKeeps(env, INITIAL, actions);
    UploadIsReady(env, sys, d, user, file, k, mode, n);
    NoOrphans(env, sys.store, Fresh(k), ChunkTask);
    NoOrphans(env, sys.store, Derived(Fresh(k), ChunkTask), EmbedTask);
    var uploaded := Perform(env, sys, upload);
    more := ThreeStages(env, uploaded, Fresh(k), d, n, env.build(d, env.parse(file, mode)).value);
    ExecuteConcat(env, INITIAL, actions, [upload] + more);
    assert ([upload] + more)[1..] == more;
    UploadStays(env, uploaded, more, Fresh(k), d);
    IndexAgreement(env, actions + ([upload] + more), d, Fresh(k));
  }

  lemma DeletionIsReady(env: Env, sys: System, d: DocumentId, k: nat, n: nat)
    requires env.Valid() && SystemInvariant(env, sys)
    requires IsLive(sys.store, d) && sys.store.documents[d].status != Deleting
    requires Fresh(k) !in sys.store.tasks && n !in sys.workers
    ensures var sys' := Perform(env, sys, RequestDelete(d, sys.store.documents[d].user, k));
            && SystemInvariant(env, sys') && StageReady(sys', Fresh(k), DeleteTask, d, Deleting, n)
            && Rows(sys'.store, d) == Rows(sys.store, d)
  {
    var user := sys.store.documents[d].user;
    EveryActionKeeps(env, sys, RequestDelete(d, user, k));
    assert CreateDeleteTask(sys.store, d, user, Fresh(k)).Applied?;
    DeleteRequestDispatches(sys.store, d, user, Fresh(k));
  }

  /** A document can always be deleted.  At any point of any run, whatever its stage, a live document that is
      not being deleted already can be asked to be deleted by its owner, and go on, with nothing failing, to be
      gone: no row listed and no vector left. */
  lemma DocumentCanBeDeleted(env: Env, actions: seq<Action>, d: DocumentId, k: nat, n: nat)
    returns (more: seq<Action>)
    requires env.Valid() && IsLive(Reached(env, actions), d) && Reached(env, actions).documents[d].status != Deleting
    requires Fresh(k) !in Reached(env, actions).tasks && n !in Execute(env, INITIAL, actions).workers
    ensures var request := RequestDelete(d, Reached(env, actions).documents[d].user, k);
            Gone(Reached(env, actions), Reached(env, actions + ([request] + more)), d)
  {
    var sys := Execute(env, INITIAL, actions);
    var request := RequestDelete(d, sys.store.documents[d].user, k);
    RunKeeps(env, INITIAL, actions);
    DeletionIsReady(env, sys, d, k, n);
    more := DeleteRuns(env, Perform(env, sys, request), Fresh(k), d, n);
    ExecuteConcat(env, INITIAL, actions, [request] + more);
    assert ([request] + more)[1..] == more;
  }
}
