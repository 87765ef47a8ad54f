/** The tables of the indexing pipeline and one function per SQL statement or transaction
    (documentrepo.go, indextaskrepo.go, chunkrepo.go, outboxrepo.go).  Each function gives the new
    database, or Conflict when the guard of the UPDATE matches no row. */
module IndexStore {
  import opened Options
  import opened Status
  import opened Chunker

  type DocumentId = nat
  type UserId = nat

  datatype Mode = Unset | Standard | Enhanced

  /** Root task ids are random UUIDs; the id of a follow-up task is the SHA-1 name of its parent's id
      and its kind, kept here as the pair it is computed from. */
  datatype TaskId = Fresh(n: nat) | Derived(parent: TaskId, purpose: TaskKind)

  datatype Document = Document(user: UserId, file: string, status: DocumentStatus, content: Option<ParsedText>,
                               deleted: bool)

  datatype Task = Task(document: DocumentId, user: UserId, kind: TaskKind, mode: Mode, status: TaskStatus,
                       retries: nat, lease: Option<int>)

  datatype Message = Message(task: TaskId, document: DocumentId, mode: Mode)

  datatype OutboxRow = OutboxRow(subject: TaskKind, message: Message, attempts: nat, nextAttempt: int,
                                 locked: Option<int>, published: bool)

  datatype Store = Store(documents: map<DocumentId, Document>, tasks: map<TaskId, Task>,
                         outbox: map<TaskId, OutboxRow>, chunks: map<DocumentId, seq<ChunkRow>>,
                         vectors: set<ChunkId>, now: int)

  datatype Outcome = Applied(store: Store) | Conflict

  /** What is fixed for a deployment: the parser and the chunker as functions, and the task lease. */
  datatype Env = Env(parse: (string, Mode) -> ParsedText, build: (DocumentId, ParsedText) -> Option<seq<ChunkRow>>,
                     lease: int) {
    /** The leases are positive and the chunker only makes live rows of the document it is given. */
    ghost predicate Valid() {
      && 1 <= lease
      && forall d, p :: build(d, p).Some? ==> OwnLiveRows(d, build(d, p).value)
    }
  }

  ghost predicate OwnLiveRows(d: DocumentId, rows: seq<ChunkRow>) {
    rows != [] && forall r :: r in rows ==> r.id.document == d && !r.deleted
  }

  function Rows(s: Store, d: DocumentId): seq<ChunkRow> {
    if d in s.chunks then s.chunks[d] else []
  }

  function IdsOf(rows: seq<ChunkRow>): set<ChunkId> {
    set r | r in rows :: r.id
  }

  predicate IsLive(s: Store, d: DocumentId) {
    d in s.documents && !s.documents[d].deleted
  }

  // ----- Outbox -----

  function Payload(id: TaskId, task: Task): Message {
    Message(id, task.document, if task.kind == ParseTask then task.mode else Unset)
  }

  function EnqueueOutbox(s: Store, id: TaskId, task: Task, reset: bool): Store {
    if id in s.outbox && !reset then s
    else s.(outbox := s.outbox[id := OutboxRow(task.kind, Payload(id, task), 0, s.now, None, false)])
  }

  predicate OutboxDue(s: Store, id: TaskId) {
    && id in s.outbox && !s.outbox[id].published && s.outbox[id].nextAttempt <= s.now
    && (s.outbox[id].locked.None? || s.outbox[id].locked.value < s.now - 60)
  }

  /** One row of a claimed batch: the statement locks every row it returns. */
  function LockOutboxRow(s: Store, id: TaskId): Outcome {
    if OutboxDue(s, id) then Applied(s.(outbox := s.outbox[id := s.outbox[id].(locked := Some(s.now))])) else Conflict
  }

  /** A whole batch: the rows are locked one after the other. */
  function LockAll(s: Store, ids: seq<TaskId>): Store {
    if ids == [] then s
    else
      var before := LockAll(s, ids[..|ids| - 1]);
      var o := LockOutboxRow(before, ids[|ids| - 1]);
      if o.Applied? then o.store else before
  }

  /** The first due rows of an order, at most `bound` of them. */
  function FirstDue(s: Store, order: seq<TaskId>, bound: nat): (claimed: seq<TaskId>)
    ensures |claimed| <= bound && forall id :: id in claimed ==> id in order && OutboxDue(s, id)
  {
    if order == [] then []
    else
      var earlier := FirstDue(s, order[..|order| - 1], bound);
      var last := order[|order| - 1];
      if |earlier| < bound && OutboxDue(s, last) then earlier + [last] else earlier
  }

  function MarkPublished(s: Store, id: TaskId): Outcome {
    if id in s.outbox then Applied(s.(outbox := s.outbox[id := s.outbox[id].(published := true, locked := None)]))
    else Conflict
  }

  function PowerOfTwo(n: nat): nat {
    if n == 0 then 1 else 2 * PowerOfTwo(n - 1)
  }

  function MarkFailed(s: Store, id: TaskId): Outcome {
    if id in s.outbox then
      var row := s.outbox[id];
      var delay := PowerOfTwo(if row.attempts < 6 then row.attempts else 6);
      Applied(s.(outbox := s.outbox[id := row.(attempts := row.attempts + 1, nextAttempt := s.now + delay,
                                               locked := None)]))
    else Conflict
  }

  // ----- Documents -----

  function CreateWithIndexTask(s: Store, d: DocumentId, user: UserId, file: string, id: TaskId, mode: Mode): Outcome {
    if d in s.documents || id in s.tasks then Conflict
    else
      var task := Task(d, user, ParseTask, mode, Pending, 0, None);
      var s' := s.(documents := s.documents[d := Document(user, file, Uploaded, None, false)],
                   tasks := s.tasks[id := task]);
      Applied(EnqueueOutbox(s', id, task, false))
  }

  function WithStatus(s: Store, d: DocumentId, status: DocumentStatus): Store
    requires d in s.documents
  {
    s.(documents := s.documents[d := s.documents[d].(status := status)])
  }

  function UpdateStatus(s: Store, d: DocumentId, next: DocumentStatus): Outcome {
    var previous := DocumentPrevious(next);
    if previous.Some? && IsLive(s, d) && s.documents[d].status in previous.value then Applied(WithStatus(s, d, next))
    else Conflict
  }

  function ResetStatusForRetry(s: Store, d: DocumentId, next: DocumentStatus): Outcome {
    var previous := DocumentRetryPrevious(next);
    if previous.Some? && IsLive(s, d) && s.documents[d].status in previous.value then Applied(WithStatus(s, d, next))
    else Conflict
  }

  function CompleteParse(s: Store, d: DocumentId, content: ParsedText): Outcome {
    if IsLive(s, d) && s.documents[d].status == Parsing then
      Applied(s.(documents := s.documents[d := s.documents[d].(status := Parsed, content := Some(content))]))
    else Conflict
  }

  function CreateDeleteTask(s: Store, d: DocumentId, user: UserId, id: TaskId): Outcome {
    if !IsLive(s, d) || s.documents[d].user != user || s.documents[d].status !in DocumentPrevious(Deleting).value
        || id in s.tasks then Conflict
    else
      var task := Task(d, user, DeleteTask, Unset, Pending, 0, None);
      var s' := WithStatus(s, d, Deleting);
      Applied(EnqueueOutbox(s'.(tasks := s'.tasks[id := task]), id, task, false))
  }

  function MarkDeleted(rows: seq<ChunkRow>): (marked: seq<ChunkRow>)
    ensures |marked| == |rows|
  {
    seq(|rows|, i requires 0 <= i < |rows| => rows[i].(deleted := true))
  }

  function CompleteDelete(s: Store, d: DocumentId): Outcome {
    if IsLive(s, d) && s.documents[d].status == Deleting then
      Applied(s.(documents := s.documents[d := s.documents[d].(deleted := true)],
                 chunks := s.chunks[d := MarkDeleted(Rows(s, d))]))
    else Conflict
  }

  // ----- Chunk rows and vectors -----

  /** Delete all rows of the document, then insert the new ones, in one transaction. */
  function ReplaceByDocument(s: Store, rows: seq<ChunkRow>): Store {
    if rows == [] then s else s.(chunks := s.chunks[rows[0].id.document := rows])
  }

  function LiveRows(rows: seq<ChunkRow>): seq<ChunkRow> {
    if rows == [] then []
    else (if rows[0].deleted then [] else [rows[0]]) + LiveRows(rows[1..])
  }

  function ListByDocument(s: Store, d: DocumentId): seq<ChunkRow> {
    LiveRows(Rows(s, d))
  }

  function UpsertChunks(s: Store, rows: seq<ChunkRow>): Store {
    s.(vectors := s.vectors + IdsOf(rows))
  }

  function DeleteVectorsOf(s: Store, d: DocumentId): Store {
    s.(vectors := set v | v in s.vectors && v.document != d)
  }

  predicate HasVectors(s: Store, d: DocumentId) {
    exists v :: v in s.vectors && v.document == d
  }

  // ----- Tasks -----

  function CreateTask(s: Store, id: TaskId, task: Task): Store {
    if id in s.tasks then s else EnqueueOutbox(s.(tasks := s.tasks[id := task]), id, task, false)
  }

  function UpdateTaskStatus(s: Store, id: TaskId, next: TaskStatus): Outcome {
    var previous := TaskPrevious(next);
    if previous.Some? && id in s.tasks && s.tasks[id].status in previous.value then
      Applied(s.(tasks := s.tasks[id := s.tasks[id].(status := next, lease := None)]))
    else Conflict
  }

  predicate Claimable(s: Store, id: TaskId) {
    && id in s.tasks
    && (s.tasks[id].status == Pending
        || (s.tasks[id].status == Running && (s.tasks[id].lease.None? || s.tasks[id].lease.value <= s.now)))
  }

  function Claim(s: Store, id: TaskId, lease: int): Outcome {
    if Claimable(s, id) then
      var seconds := if lease < 1 then 1 else lease;
      Applied(s.(tasks := s.tasks[id := s.tasks[id].(status := Running, lease := Some(s.now + seconds))]))
    else Conflict
  }

  const MAX_AUTOMATIC_RETRIES: nat := 3

  function ScheduleRetry(s: Store, id: TaskId): Outcome {
    if id in s.tasks && s.tasks[id].retries < MAX_AUTOMATIC_RETRIES && s.tasks[id].status in {Running, Errored} then
      Applied(s.(tasks := s.tasks[id := s.tasks[id].(status := Pending, retries := s.tasks[id].retries + 1,
                                                     lease := None)]))
    else Conflict
  }

  /** The manual retry: task, document and outbox row change together or not at all. */
  function Retry(s: Store, id: TaskId, user: UserId): Outcome {
    if id !in s.tasks || s.tasks[id].user != user || s.tasks[id].status != Errored then Conflict
    else
      var task := s.tasks[id].(status := Pending, retries := s.tasks[id].retries + 1, lease := None);
      var target := RetryTarget(task.kind);
      var previous := DocumentRetryPrevious(target);
      if previous.None? || !IsLive(s, task.document) || s.documents[task.document].user != user
         || s.documents[task.document].status !in previous.value then Conflict
      else
        Applied(EnqueueOutbox(WithStatus(s.(tasks := s.tasks[id := task]), task.document, target), id, task, true))
  }
}
