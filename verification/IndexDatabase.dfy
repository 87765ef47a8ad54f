/** The repositories as they are written: methods that guard and update rows in place, with
    transactions that roll back.  Each is proved to have exactly the effect of the statement function
    the pipeline results are about (documentrepo.go, indextaskrepo.go, chunkrepo.go, outboxrepo.go), and
    to keep the invariant of the pipeline under the condition its callers meet. */
module IndexDatabase {
  import opened Arithmetic
  import opened Options
  import opened Status
  import opened Chunker
  import opened IndexInvariant
  import opened IndexStatements
  import opened IndexStore

  lemma LiveRowsStep(rows: seq<ChunkRow>, i: nat, before: seq<ChunkRow>)
    requires i < |rows|
    ensures before + LiveRows(rows[i..])
         == (if rows[i].deleted then before else before + [rows[i]]) + LiveRows(rows[i + 1..])
  {
    assert rows[i..][1..] == rows[i + 1..];
  }

  class Database {
    var documents: map<DocumentId, Document>
    var tasks: map<TaskId, Task>
    var outbox: map<TaskId, OutboxRow>
    var chunks: map<DocumentId, seq<ChunkRow>>
    var vectors: set<ChunkId>
    var now: int

    /** The parser, the chunker and the lease of the deployment the database belongs to. */
    ghost const env: Env

    constructor (ghost env: Env)
      ensures this.env == env && View() == Store(map[], map[], map[], map[], {}, 0)
      ensures Invariant(env, View())
    {
      this.env := env;
      documents, tasks, outbox, chunks, vectors, now := map[], map[], map[], map[], {}, 0;
      EmptyIsGood(env);
    }

    function View(): Store
      reads this
    {
      Store(documents, tasks, outbox, chunks, vectors, now)
    }

    /** The state after a guarded statement: the one it gives, or the old one on conflict. */
    ghost predicate Did(before: Store, o: Outcome, ok: bool)
      reads this
    {
      ok == o.Applied? && View() == if o.Applied? then o.store else before
    }

    // ----- Outbox -----

    method EnqueueOutboxRow(id: TaskId, task: Task, reset: bool)
      modifies this`outbox
      ensures View() == EnqueueOutbox(old(View()), id, task, reset)
      ensures id in tasks && tasks[id] == task ==> Kept(env, old(View()), View())
    {
      if id in tasks && tasks[id] == task {
        EnqueueIsKept(env, View(), id, task, reset);
      }
      var mode := Unset;
      if task.kind == ParseTask {
        mode := task.mode;
      }
      var row := OutboxRow(task.kind, Message(id, task.document, mode), 0, now, None, false);
      if id !in outbox || reset {
        outbox := outbox[id := row];
      }
    }

    /** Claims up to `limit` due rows in the order given, which is that of creation. */
    method ClaimBatch(order: seq<TaskId>, limit: int) returns (claimed: seq<TaskId>)
      requires Distinct(order)
      modifies this`outbox
      ensures claimed == FirstDue(old(View()), order, if 1 <= limit <= 100 then limit else 50)
      ensures View() == LockAll(old(View()), claimed)
      ensures Kept(env, old(View()), View())
    {
      ghost var before := View();
      var bound := if limit < 1 || limit > 100 then 50 else limit;
      claimed := [];
      for i := 0 to |order|
        invariant claimed == FirstDue(before, order[..i], bound)
        invariant View() == LockAll(before, claimed)
      {
        if |claimed| == bound {
          FullBatchStays(before, order, i, bound);
          BatchIsKept(env, before, claimed);
          return;
        }
        var id := order[i];
        NextDue(before, order, i, bound);
        if OutboxDue(View(), id) {
          outbox := outbox[id := outbox[id].(locked := Some(now))];
          claimed := claimed + [id];
        }
      }
      assert order[..|order|] == order;
      BatchIsKept(env, before, claimed);
    }

    method ConfirmPublished(id: TaskId) returns (ok: bool)
      modifies this`outbox
      ensures Did(old(View()), MarkPublished(old(View()), id), ok)
      ensures Kept(env, old(View()), View())
    {
      PublicationIsKept(env, View(), id);
      ok := id in outbox;
      if ok {
        outbox := outbox[id := outbox[id].(published := true, locked := None)];
      }
    }

    /** A failed publication is tried again after 1, 2, 4, ... up to 64 seconds. */
    method RejectPublished(id: TaskId) returns (ok: bool)
      modifies this`outbox
      ensures Did(old(View()), MarkFailed(old(View()), id), ok)
      ensures Kept(env, old(View()), View())
    {
      PublicationIsKept(env, View(), id);
      ok := id in outbox;
      if ok {
        var row := outbox[id];
        var exponent := if row.attempts < 6 then row.attempts else 6;
        var delay := 1;
        for i := 0 to exponent
          invariant delay == PowerOfTwo(i)
        {
          delay := 2 * delay;
        }
        outbox := outbox[id := row.(attempts := row.attempts + 1, nextAttempt := now + delay, locked := None)];
      }
    }

    // ----- Documents -----

    method CreateDocumentWithTask(d: DocumentId, user: UserId, file: string, id: TaskId, mode: Mode) returns (ok: bool)
      modifies this
      ensures Did(old(View()), CreateWithIndexTask(old(View()), d, user, file, id, mode), ok)
      ensures ok && old(OutboxPaired(View())) ==> ReadyToSend(View(), id) && OtherRowsStay(old(View()), View(), id)
      ensures id.Fresh? ==> Kept(env, old(View()), View())
    {
      if OutboxPaired(View()) && CreateWithIndexTask(View(), d, user, file, id, mode).Applied? {
        UploadDispatches(View(), d, user, file, id, mode);
      }
      if id.Fresh? {
        UploadIsKept(env, View(), d, user, file, id, mode);
      }
      if d in documents {
        return false;
      }
      ghost var before := View();
      var saved := documents;
      documents := documents[d := Document(user, file, Uploaded, None, false)];
      if id in tasks {
        documents := saved;
        assert View() == before;
        return false;
      }
      var task := Task(d, user, ParseTask, mode, Pending, 0, None);
      tasks := tasks[id := task];
      EnqueueOutboxRow(id, task, false);
      return true;
    }

    method UpdateDocumentStatus(d: DocumentId, status: DocumentStatus) returns (ok: bool)
      modifies this`documents
      ensures Did(old(View()), UpdateStatus(old(View()), d, status), ok)
      ensures old(IsLive(View(), d) ==> StatusAllowed(View(), d, status)) ==> Kept(env, old(View()), View())
    {
      if IsLive(View(), d) ==> StatusAllowed(View(), d, status) {
        StatusIsKept(env, View(), d, status);
      }
      var previous := DocumentPrevious(status);
      if previous.None? {
        return false;
      }
      ok := d in documents && !documents[d].deleted && documents[d].status in previous.value;
      if ok {
        documents := documents[d := documents[d].(status := status)];
      }
    }

    method ResetDocumentForRetry(d: DocumentId, status: DocumentStatus) returns (ok: bool)
      modifies this`documents
      ensures Did(old(View()), ResetStatusForRetry(old(View()), d, status), ok)
      ensures old(IsLive(View(), d) ==> StatusAllowed(View(), d, status)) ==> Kept(env, old(View()), View())
    {
      if IsLive(View(), d) ==> StatusAllowed(View(), d, status) {
        StatusIsKept(env, View(), d, status);
      }
      var previous := DocumentRetryPrevious(status);
      if previous.None? {
        return false;
      }
      ok := d in documents && !documents[d].deleted && documents[d].status in previous.value;
      if ok {
        documents := documents[d := documents[d].(status := status)];
      }
    }

    method CompleteDocumentParse(d: DocumentId, content: ParsedText) returns (ok: bool)
      modifies this`documents
      ensures Did(old(View()), CompleteParse(old(View()), d, content), ok)
      ensures old(IsParseOf(env, View(), d, content)) ==> Kept(env, old(View()), View())
    {
      if IsParseOf(env, View(), d, content) {
        ParseIsKept(env, View(), d, content);
      }
      ok := d in documents && !documents[d].deleted && documents[d].status == Parsing;
      if ok {
        documents := documents[d := documents[d].(status := Parsed, content := Some(content))];
      }
    }

    method CreateDocumentDeleteTask(d: DocumentId, user: UserId, id: TaskId) returns (ok: bool)
      modifies this
      ensures Did(old(View()), CreateDeleteTask(old(View()), d, user, id), ok)
      ensures ok && old(OutboxPaired(View())) ==> ReadyToSend(View(), id) && OtherRowsStay(old(View()), View(), id)
      ensures id.Fresh? ==> Kept(env, old(View()), View())
    {
      if OutboxPaired(View()) && CreateDeleteTask(View(), d, user, id).Applied? {
        DeleteRequestDispatches(View(), d, user, id);
      }
      if id.Fresh? {
        DeleteRequestIsKept(env, View(), d, user, id);
      }
      var previous := DocumentPrevious(Deleting).value;
      if d !in documents || documents[d].user != user || documents[d].deleted || documents[d].status !in previous {
        return false;
      }
      ghost var before := View();
      var saved := documents;
      documents := documents[d := documents[d].(status := Deleting)];
      if id in tasks {
        documents := saved;
        assert View() == before;
        return false;
      }
      var task := Task(d, user, DeleteTask, Unset, Pending, 0, None);
      tasks := tasks[id := task];
      EnqueueOutboxRow(id, task, false);
      return true;
    }

    /** Both updates run before the guard is known, and are undone together. */
    method CompleteDocumentDelete(d: DocumentId) returns (ok: bool)
      modifies this`documents, this`chunks
      ensures Did(old(View()), CompleteDelete(old(View()), d), ok)
      ensures Kept(env, old(View()), View())
    {
      DeleteIsKept(env, View(), d);
      var saved := chunks;
      var rows := if d in chunks then chunks[d] else [];
      var marked: seq<ChunkRow> := [];
      for i := 0 to |rows|
        invariant marked == MarkDeleted(rows)[..i]
      {
        marked := marked + [rows[i].(deleted := true)];
      }
      assert marked == MarkDeleted(rows);
      chunks := chunks[d := marked];
      if d !in documents || documents[d].deleted || documents[d].status != Deleting {
        chunks := saved;
        return false;
      }
      documents := documents[d := documents[d].(deleted := true)];
      return true;
    }

    // ----- Chunk rows -----

    method ReplaceDocumentChunks(rows: seq<ChunkRow>)
      modifies this`chunks
      ensures View() == ReplaceByDocument(old(View()), rows)
      ensures old(env.Valid() && IsBuildOf(env, View(), rows)) ==> Kept(env, old(View()), View())
    {
      if env.Valid() && IsBuildOf(env, View(), rows) {
        RowsAreKept(env, View(), rows);
      }
      if |rows| == 0 {
        return;
      }
      var d := rows[0].id.document;
      chunks := chunks[d := []];
      for i := 0 to |rows|
        invariant d in chunks && chunks == old(chunks)[d := rows[..i]]
      {
        chunks := chunks[d := chunks[d] + [rows[i]]];
        assert rows[..i + 1] == rows[..i] + [rows[i]];
      }
      assert rows[..|rows|] == rows;
    }

    method ListDocumentChunks(d: DocumentId) returns (result: seq<ChunkRow>)
      ensures result == ListByDocument(View(), d)
    {
      var rows := if d in chunks then chunks[d] else [];
      result := [];
      for i := 0 to |rows|
        invariant result + LiveRows(rows[i..]) == LiveRows(rows)
      {
        LiveRowsStep(rows, i, result);
        if !rows[i].deleted {
          result := result + [rows[i]];
        }
      }
    }

    // ----- Tasks -----

    method CreateIndexTask(id: TaskId, task: Task)
      modifies this`tasks, this`outbox
      ensures View() == CreateTask(old(View()), id, task)
      ensures id !in old(tasks) && old(OutboxPaired(View())) ==> ReadyToSend(View(), id)
      ensures old(id in tasks || MayBeAdded(View(), id, task)) ==> Kept(env, old(View()), View())
    {
      if id in tasks || MayBeAdded(View(), id, task) {
        TaskIsKept(env, View(), id, task);
      }
      if OutboxPaired(View()) {
        FollowUpDispatches(View(), id, task);
      }
      if id in tasks {
        return;
      }
      tasks := tasks[id := task];
      EnqueueOutboxRow(id, task, false);
    }

    method UpdateIndexTaskStatus(id: TaskId, status: TaskStatus) returns (ok: bool)
      modifies this`tasks
      ensures Did(old(View()), UpdateTaskStatus(old(View()), id, status), ok)
      ensures old(MayEndAs(View(), id, status)) ==> Kept(env, old(View()), View())
    {
      if MayEndAs(View(), id, status) {
        TaskStatusIsKept(env, View(), id, status);
      }
      var previous := TaskPrevious(status);
      if previous.None? {
        return false;
      }
      ok := id in tasks && tasks[id].status in previous.value;
      if ok {
        tasks := tasks[id := tasks[id].(status := status, lease := None)];
      }
    }

    method ClaimIndexTask(id: TaskId, lease: int) returns (ok: bool)
      modifies this`tasks
      ensures Did(old(View()), Claim(old(View()), id, lease), ok)
      ensures Kept(env, old(View()), View())
    {
      ClaimIsKept(env, View(), id, lease);
      var seconds := Max(lease, 1);
      ok := id in tasks
         && (tasks[id].status == Pending
             || (tasks[id].status == Running && (tasks[id].lease.None? || tasks[id].lease.value <= now)));
      if ok {
        tasks := tasks[id := tasks[id].(status := Running, lease := Some(now + seconds))];
      }
    }

    method ScheduleTaskRetry(id: TaskId) returns (ok: bool)
      modifies this`tasks
      ensures Did(old(View()), ScheduleRetry(old(View()), id), ok)
      ensures Kept(env, old(View()), View())
    {
      ScheduleIsKept(env, View(), id);
      ok := id in tasks && tasks[id].retries < MAX_AUTOMATIC_RETRIES
         && (tasks[id].status == Running || tasks[id].status == Errored);
      if ok {
        tasks := tasks[id := tasks[id].(status := Pending, retries := tasks[id].retries + 1, lease := None)];
      }
    }

    /** The task is reset first; when the document cannot follow, the transaction is rolled back. */
    method RetryTask(id: TaskId, user: UserId) returns (ok: bool)
      modifies this
      ensures Did(old(View()), Retry(old(View()), id, user), ok)
      ensures ok ==> ReadyToSend(View(), id) && OtherRowsStay(old(View()), View(), id)
      ensures Kept(env, old(View()), View())
    {
      RetryIsKept(env, View(), id, user);
      if Retry(View(), id, user).Applied? {
        RetryDispatches(View(), id, user);
      }
      if id !in tasks || tasks[id].user != user || tasks[id].status != Errored {
        return false;
      }
      var saved := tasks;
      var task := tasks[id].(status := Pending, retries := tasks[id].retries + 1, lease := None);
      tasks := tasks[id := task];
      var target := RetryTarget(task.kind);
      var previous := DocumentRetryPrevious(target);
      var d := task.document;
      if previous.None? || d !in documents || documents[d].user != user || documents[d].deleted
         || documents[d].status !in previous.value {
        tasks := saved;
        return false;
      }
      documents := documents[d := documents[d].(status := target)];
      EnqueueOutboxRow(id, task, true);
      return true;
    }
  }
}
