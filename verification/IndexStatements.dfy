/** Each statement on its own: on what condition it keeps the invariant of the pipeline, and what a claimed
    batch of outbox rows is. */
module IndexStatements {
  import opened Chunker
  import opened IndexInvariant
  import opened IndexStore
  import opened Options
  import opened Status

  ghost predicate Kept(env: Env, before: Store, after: Store) {
    Invariant(env, before) ==> Invariant(env, after) && Evolves(before, after)
  }

  ghost predicate OutcomeKept(env: Env, s: Store, o: Outcome) {
    Kept(env, s, if o.Applied? then o.store else s)
  }

  lemma NothingChanged(env: Env, s: Store)
    ensures Kept(env, s, s)
  {
  }

  lemma EmptyIsGood(env: Env)
    ensures Invariant(env, Store(map[], map[], map[], map[], {}, 0))
  {
  }

  // ----- Documents -----

  lemma UploadIsKept(env: Env, s: Store, d: DocumentId, user: UserId, file: string, id: TaskId, mode: Mode)
    requires id.Fresh?
    ensures OutcomeKept(env, s, CreateWithIndexTask(s, d, user, file, id, mode))
  {
    NothingChanged(env, s);
    if Invariant(env, s) && CreateWithIndexTask(s, d, user, file, id, mode).Applied? {
      UploadKeeps(env, s, d, user, file, id, mode);
    }
  }

  lemma StatusIsKept(env: Env, s: Store, d: DocumentId, status: DocumentStatus)
    requires IsLive(s, d) ==> StatusAllowed(s, d, status)
    ensures OutcomeKept(env, s, UpdateStatus(s, d, status)) && OutcomeKept(env, s, ResetStatusForRetry(s, d, status))
  {
    NothingChanged(env, s);
    if Invariant(env, s) && IsLive(s, d) {
      StatusChangeKeeps(env, s, d, status);
    }
  }

  /** The content is the parse of the document's file in the mode of its upload. */
  ghost predicate IsParseOf(env: Env, s: Store, d: DocumentId, content: ParsedText) {
    exists id ::
      IsParseTaskOf(s, id, d) && d in s.documents && content == env.parse(s.documents[d].file, s.tasks[id].mode)
  }

  lemma ParseIsKept(env: Env, s: Store, d: DocumentId, content: ParsedText)
    requires IsParseOf(env, s, d, content)
    ensures OutcomeKept(env, s, CompleteParse(s, d, content))
  {
    NothingChanged(env, s);
    if Invariant(env, s) && CompleteParse(s, d, content).Applied? {
      var id :| IsParseTaskOf(s, id, d) && content == env.parse(s.documents[d].file, s.tasks[id].mode);
      ParseCompletedKeeps(env, s, d, id, content);
    }
  }

  lemma DeleteRequestIsKept(env: Env, s: Store, d: DocumentId, user: UserId, id: TaskId)
    requires id.Fresh?
    ensures OutcomeKept(env, s, CreateDeleteTask(s, d, user, id))
  {
    NothingChanged(env, s);
    if Invariant(env, s) && CreateDeleteTask(s, d, user, id).Applied? {
      DeleteRequestKeeps(env, s, d, user, id);
    }
  }

  lemma DeleteIsKept(env: Env, s: Store, d: DocumentId)
    ensures OutcomeKept(env, s, CompleteDelete(s, d))
  {
    NothingChanged(env, s);
    if Invariant(env, s) && CompleteDelete(s, d).Applied? {
      DeleteCompletedKeeps(env, s, d);
    }
  }

  /** The rows are what the chunker builds from the stored content. */
  ghost predicate IsBuildOf(env: Env, s: Store, rows: seq<ChunkRow>) {
    rows != [] ==>
      var d := rows[0].id.document;
      d in s.documents && s.documents[d].content.Some? && env.build(d, s.documents[d].content.value) == Some(rows)
  }

  lemma RowsAreKept(env: Env, s: Store, rows: seq<ChunkRow>)
    requires env.Valid() && IsBuildOf(env, s, rows)
    ensures Kept(env, s, ReplaceByDocument(s, rows))
  {
    NothingChanged(env, s);
    if Invariant(env, s) && rows != [] {
      RowsReplacedKeeps(env, s, rows[0].id.document, rows);
    }
  }

  // ----- Tasks -----

  /** A follow-up or delete task its document is ready for. */
  ghost predicate MayBeAdded(s: Store, id: TaskId, task: Task) {
    && task.kind != ParseTask && task.status == Pending && task.lease.None?
    && task.document in s.documents && s.documents[task.document].user == task.user
    && TaskReady(s, task.kind, task.document)
    && TaskShape(s.(tasks := s.tasks[id := task]), id)
  }

  lemma TaskIsKept(env: Env, s: Store, id: TaskId, task: Task)
    requires id in s.tasks || MayBeAdded(s, id, task)
    ensures Kept(env, s, CreateTask(s, id, task))
  {
    NothingChanged(env, s);
    if Invariant(env, s) && id !in s.tasks {
      TaskAddedKeeps(env, s, id, task);
    }
  }

  lemma ChangedTaskIsKept(env: Env, s: Store, id: TaskId, task: Task)
    requires id in s.tasks && TaskChangeAllowed(s, id, task)
    ensures Kept(env, s, s.(tasks := s.tasks[id := task]))
  {
    if Invariant(env, s) {
      TaskChangeKeeps(env, s, id, task);
    }
  }

  /** A task may be failed at any time, and succeed once its stage has left behind what it should. */
  ghost predicate MayEndAs(s: Store, id: TaskId, status: TaskStatus) {
    status == Errored
    || (status == Succeeded && (id in s.tasks ==> StageDone(s, id, s.tasks[id].kind, s.tasks[id].document)))
  }

  lemma TaskStatusIsKept(env: Env, s: Store, id: TaskId, status: TaskStatus)
    requires MayEndAs(s, id, status)
    ensures OutcomeKept(env, s, UpdateTaskStatus(s, id, status))
  {
    NothingChanged(env, s);
    if UpdateTaskStatus(s, id, status).Applied? {
      ChangedTaskIsKept(env, s, id, s.tasks[id].(status := status, lease := None));
    }
  }

  lemma ClaimIsKept(env: Env, s: Store, id: TaskId, lease: int)
    ensures OutcomeKept(env, s, Claim(s, id, lease))
  {
    NothingChanged(env, s);
    if Claimable(s, id) {
      ChangedTaskIsKept(env, s, id, Claim(s, id, lease).store.tasks[id]);
    }
  }

  lemma ScheduleIsKept(env: Env, s: Store, id: TaskId)
    ensures OutcomeKept(env, s, ScheduleRetry(s, id))
  {
    NothingChanged(env, s);
    if ScheduleRetry(s, id).Applied? {
      ChangedTaskIsKept(env, s, id, ScheduleRetry(s, id).store.tasks[id]);
    }
  }

  lemma RetryIsKept(env: Env, s: Store, id: TaskId, user: UserId)
    ensures OutcomeKept(env, s, Retry(s, id, user))
  {
    NothingChanged(env, s);
    if Invariant(env, s) && Retry(s, id, user).Applied? {
      RetryKeeps(env, s, id, user);
    }
  }

  /** The task's own message is to be sent, now and for the first time. */
  ghost predicate ReadyToSend(s: Store, id: TaskId) {
    && id in s.tasks && id in s.outbox
    && var task, row := s.tasks[id], s.outbox[id];
       && row.subject == task.kind
       && row.message.task == id && row.message.document == task.document
       && row.message.mode == (if task.kind == ParseTask then task.mode else Unset)
       && row.attempts == 0 && row.locked == None && row.nextAttempt == s.now && !row.published
       && OutboxDue(s, id)
  }

  ghost predicate OtherRowsStay(s: Store, s': Store, id: TaskId) {
    forall other :: other in s.outbox && other != id ==> other in s'.outbox && s'.outbox[other] == s.outbox[other]
  }

  // ----- The transactions that enqueue a message -----

  /** An accepted manual retry: the task is pending again, its document back at the stage before, and its
      message is sent again from the start, even when it had been sent before. */
  lemma RetryDispatches(s: Store, id: TaskId, user: UserId)
    requires Retry(s, id, user).Applied?
    ensures var s' := Retry(s, id, user).store;
            && ReadyToSend(s', id) && OtherRowsStay(s, s', id)
            && s'.tasks[id].status == Pending
            && s'.tasks[id].document in s'.documents
            && s'.documents[s'.tasks[id].document].status == RetryTarget(s'.tasks[id].kind)
  {
  }

  lemma UploadDispatches(s: Store, d: DocumentId, user: UserId, file: string, id: TaskId, mode: Mode)
    requires OutboxPaired(s) && CreateWithIndexTask(s, d, user, file, id, mode).Applied?
    ensures var s' := CreateWithIndexTask(s, d, user, file, id, mode).store;
            ReadyToSend(s', id) && OtherRowsStay(s, s', id) && s'.tasks[id].status == Pending
  {
    assert id !in s.outbox.Keys;
  }

  lemma DeleteRequestDispatches(s: Store, d: DocumentId, user: UserId, id: TaskId)
    requires OutboxPaired(s) && CreateDeleteTask(s, d, user, id).Applied?
    ensures var s' := CreateDeleteTask(s, d, user, id).store;
            ReadyToSend(s', id) && OtherRowsStay(s, s', id) && s'.tasks[id].status == Pending
  {
    assert id !in s.outbox.Keys;
  }

  /** A follow-up task is sent once: an existing one keeps its row as it is. */
  lemma FollowUpDispatches(s: Store, id: TaskId, task: Task)
    requires OutboxPaired(s)
    ensures var s' := CreateTask(s, id, task);
            && OtherRowsStay(s, s', id)
            && (if id in s.tasks then s' == s else ReadyToSend(s', id) && s'.tasks[id] == task)
  {
    assert id in s.outbox.Keys <==> id in s.tasks.Keys;
  }

  // ----- Outbox -----

  lemma OutboxIsKept(env: Env, s: Store, s': Store)
    requires s' == s.(outbox := s'.outbox) && (OutboxPaired(s) ==> OutboxPaired(s'))
    ensures Kept(env, s, s')
  {
    if Invariant(env, s) {
      OutboxChangeKeeps(env, s, s');
    }
  }

  lemma EnqueueIsKept(env: Env, s: Store, id: TaskId, task: Task, reset: bool)
    requires id in s.tasks && s.tasks[id] == task
    ensures Kept(env, s, EnqueueOutbox(s, id, task, reset))
  {
    OutboxIsKept(env, s, EnqueueOutbox(s, id, task, reset));
  }

  lemma PublicationIsKept(env: Env, s: Store, id: TaskId)
    ensures OutcomeKept(env, s, MarkPublished(s, id)) && OutcomeKept(env, s, MarkFailed(s, id))
  {
    NothingChanged(env, s);
    if id in s.outbox {
      OutboxIsKept(env, s, MarkPublished(s, id).store);
      OutboxIsKept(env, s, MarkFailed(s, id).store);
    }
  }

  /** Locking a batch changes the locks of outbox rows and nothing else. */
  lemma {:induction false} LockAllLocks(s: Store, ids: seq<TaskId>)
    ensures var s' := LockAll(s, ids);
            && s' == s.(outbox := s'.outbox) && s'.outbox.Keys == s.outbox.Keys
            && (forall id :: id in s.outbox ==> s'.outbox[id] == s.outbox[id].(locked := s'.outbox[id].locked))
            && (forall id :: id in s.outbox && id !in ids ==> s'.outbox[id] == s.outbox[id])
  {
    if ids != [] {
      LockAllLocks(s, ids[..|ids| - 1]);
    }
  }

  lemma BatchIsKept(env: Env, s: Store, ids: seq<TaskId>)
    ensures Kept(env, s, LockAll(s, ids))
  {
    LockAllLocks(s, ids);
    OutboxIsKept(env, s, LockAll(s, ids));
  }

  ghost predicate Distinct(order: seq<TaskId>) {
    forall i, j :: 0 <= i < j < |order| ==> order[i] != order[j]
  }

  /** A batch takes every due row there is room for, and the earliest ones: a due row is left out only
      when the batch is full of rows that come before it. */
  lemma {:induction false} FirstDueIsFair(s: Store, order: seq<TaskId>, bound: nat)
    requires Distinct(order)
    ensures var claimed := FirstDue(s, order, bound);
            && Distinct(claimed)
            && (forall i :: 0 <= i < |order| && OutboxDue(s, order[i]) && order[i] !in claimed ==>
                  |claimed| == bound && forall j :: i <= j < |order| ==> order[j] !in claimed)
  {
    if order != [] {
      var n := |order| - 1;
      FirstDueIsFair(s, order[..n], bound);
      assert forall i :: 0 <= i < n ==> order[..n][i] == order[i];
      assert order[n] !in order[..n];
    }
  }

  /** Once the batch is full, later rows do not matter. */
  lemma {:induction false} FullBatchStays(s: Store, order: seq<TaskId>, i: nat, bound: nat)
    requires i <= |order| && |FirstDue(s, order[..i], bound)| == bound
    ensures FirstDue(s, order, bound) == FirstDue(s, order[..i], bound)
  {
    if i == |order| {
      assert order[..i] == order;
    } else {
      var front := order[..|order| - 1];
      assert front[..i] == order[..i];
      FullBatchStays(s, front, i, bound);
    }
  }

  /** One more row of the order, while the batch has room. */
  lemma NextDue(s: Store, order: seq<TaskId>, i: nat, bound: nat)
    requires Distinct(order) && i < |order| && |FirstDue(s, order[..i], bound)| < bound
    ensures var claimed, id := FirstDue(s, order[..i], bound), order[i];
            var view := LockAll(s, claimed);
            && FirstDue(s, order[..i + 1], bound) == (if OutboxDue(view, id) then claimed + [id] else claimed)
            && (OutboxDue(view, id) ==> LockAll(s, claimed + [id]) == LockOutboxRow(view, id).store)
  {
    var claimed, id := FirstDue(s, order[..i], bound), order[i];
    assert order[..i + 1][..i] == order[..i] && id !in order[..i];
    LockAllLocks(s, claimed);
    assert (claimed + [id])[..|claimed|] == claimed;
  }
}
