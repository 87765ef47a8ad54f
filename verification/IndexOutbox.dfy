/** What becomes of the messages of the tasks (outboxrepo.go): when a row of the outbox is made, reset,
    claimed, confirmed and rejected, and that a task whose message has not been sent can always be
    started. */
module IndexOutbox {
  import opened Options
  import opened Status
  import opened Chunker
  import opened IndexInvariant
  import opened IndexStatements
  import opened IndexStore
  import opened IndexWorker
  import opened IndexSystem
  import opened IndexHistory

  // ----- What one action does to one row -----

  predicate ClaimsRow(sys: System, a: Action, id: TaskId) {
    a == ClaimOutbox(id) && LockOutboxRow(sys.store, id).Applied?
  }

  /** Seconds to wait after so many failures. */
  function Delay(failures: nat): nat {
    [1, 2, 4, 8, 16, 32, 64][if failures < 6 then failures else 6]
  }

  ghost predicate RowFate(env: Env, sys: System, a: Action, id: TaskId)
    requires id in sys.store.outbox
  {
    var s, s' := sys.store, Perform(env, sys, a).store;
    id in s'.outbox && var row, row' := s.outbox[id], s'.outbox[id];
    if RetriesByHand(sys, a, id) then ReadyToSend(s', id)
    else if ClaimsRow(sys, a, id) then row' == row.(locked := Some(s.now))
    else if a == ConfirmPublished(id) then row' == row.(published := true, locked := None)
    else if a == RejectPublished(id) then
      row' == row.(attempts := row.attempts + 1, nextAttempt := s.now + Delay(row.attempts), locked := None)
    else row' == row
  }

  lemma DelayDoubles(failures: nat)
    ensures PowerOfTwo(if failures < 6 then failures else 6) == Delay(failures)
  {
    assert PowerOfTwo(2) == 4 && PowerOfTwo(3) == 8 && PowerOfTwo(4) == 16;
    assert PowerOfTwo(5) == 32 && PowerOfTwo(6) == 64;
  }

  lemma DocumentStatementsLeaveRows(env: Env, s: Store, w: Worker, reply: Reply)
    requires w.pc.ParseMark? || w.pc.ParseComplete? || w.pc.ChunkMark? || w.pc.ChunkDone? || w.pc.EmbedMark?
             || w.pc.EmbedDone? || w.pc.ResetDocument? || w.pc.FailDocument? || w.pc.DeleteDone?
    ensures HandlerStep(env, s, w, reply).0.outbox == s.outbox
  {
  }

  lemma TaskStatementsLeaveRows(env: Env, s: Store, w: Worker, reply: Reply)
    requires WritesTasks(w.pc) && !w.pc.EnqueueNext?
    ensures HandlerStep(env, s, w, reply).0.outbox == s.outbox
  {
  }

  lemma OtherStepsLeaveRows(env: Env, s: Store, w: Worker, reply: Reply)
    requires !w.pc.EnqueueNext?
    ensures HandlerStep(env, s, w, reply).0.outbox == s.outbox
  {
    if WritesTasks(w.pc) {
      TaskStatementsLeaveRows(env, s, w, reply);
    } else if w.pc.ParseMark? || w.pc.ParseComplete? || w.pc.ChunkMark? || w.pc.ChunkDone? || w.pc.EmbedMark?
              || w.pc.EmbedDone? || w.pc.ResetDocument? || w.pc.FailDocument? || w.pc.DeleteDone? {
      DocumentStatementsLeaveRows(env, s, w, reply);
    }
  }

  ghost predicate RowsStay(s: Store, s': Store) {
    forall id :: id in s.outbox ==> id in s'.outbox && s'.outbox[id] == s.outbox[id]
  }

  ghost predicate NewTasksReady(s: Store, s': Store) {
    forall id :: id in s'.tasks && id !in s.tasks ==> ReadyToSend(s', id) && s'.tasks[id].status == Pending
  }

  lemma FollowUpStep(env: Env, s: Store, w: Worker, reply: Reply)
    requires OutboxPaired(s) && w.pc.EnqueueNext?
    ensures var s' := HandlerStep(env, s, w, reply).0; RowsStay(s, s') && NewTasksReady(s, s')
  {
    var id := Derived(w.message.task, NextKind(w.subject));
    FollowUpDispatches(s, id, NextTask(w));
    assert id in s.outbox.Keys <==> id in s.tasks.Keys;
  }

  lemma WorkerStepRows(env: Env, s: Store, w: Worker, reply: Reply)
    requires OutboxPaired(s)
    ensures var s' := HandlerStep(env, s, w, reply).0; RowsStay(s, s') && NewTasksReady(s, s')
  {
    if w.pc.EnqueueNext? {
      FollowUpStep(env, s, w, reply);
    } else {
      OtherStepsLeaveRows(env, s, w, reply);
      StepAddsNoTask(env, s, w, reply);
    }
  }

  lemma StepAddsNoTask(env: Env, s: Store, w: Worker, reply: Reply)
    requires !w.pc.EnqueueNext?
    ensures HandlerStep(env, s, w, reply).0.tasks.Keys == s.tasks.Keys
  {
    if !WritesTasks(w.pc) {
      OthersLeaveTasks(env, s, w, reply);
    }
  }

  lemma RequestRows(env: Env, sys: System, a: Action)
    requires OutboxPaired(sys.store) && (a.Upload? || a.RequestDelete?)
    ensures var s, s' := sys.store, Perform(env, sys, a).store; RowsStay(s, s') && NewTasksReady(s, s')
  {
    var s := sys.store;
    assert s.outbox.Keys == s.tasks.Keys;
    match a
    case Upload(d, user, file, n, mode) =>
      if CreateWithIndexTask(s, d, user, file, Fresh(n), mode).Applied? {
        UploadDispatches(s, d, user, file, Fresh(n), mode);
      }
    case RequestDelete(d, user, n) =>
      if CreateDeleteTask(s, d, user, Fresh(n)).Applied? {
        DeleteRequestDispatches(s, d, user, Fresh(n));
      }
  }

  lemma RetryRowFate(env: Env, sys: System, task: TaskId, user: UserId, id: TaskId)
    requires id in sys.store.outbox
    ensures RowFate(env, sys, ManualRetry(task, user), id)
  {
    if Retry(sys.store, task, user).Applied? {
      RetryDispatches(sys.store, task, user);
    }
  }

  lemma PublisherRowFate(env: Env, sys: System, a: Action, id: TaskId)
    requires id in sys.store.outbox
    requires a.ClaimOutbox? || a.ConfirmPublished? || a.RejectPublished?
    ensures RowFate(env, sys, a, id)
  {
    DelayDoubles(sys.store.outbox[id].attempts);
  }

  // ----- Main results -----

  /** A row changes only when its task is retried by hand, or it is claimed, confirmed or rejected; a retry
      makes it ready to send, a claim locks it, a confirmation takes it out for good, and each rejection
      doubles the wait, up to 64 seconds. */
  lemma EveryRowFate(env: Env, sys: System, a: Action, id: TaskId)
    requires OutboxPaired(sys.store) && id in sys.store.outbox
    ensures RowFate(env, sys, a, id)
  {
    if a.Upload? || a.RequestDelete? {
      RequestRows(env, sys, a);
    } else if a.ManualRetry? {
      RetryRowFate(env, sys, a.task, a.user, id);
    } else if a.ClaimOutbox? || a.ConfirmPublished? || a.RejectPublished? {
      PublisherRowFate(env, sys, a, id);
    } else if a.Advance? && a.worker in sys.workers {
      AdvanceIsStep(env, sys, a.worker, a.reply);
      WorkerStepRows(env, sys.store, sys.workers[a.worker], a.reply);
    }
  }

  /** Whatever makes a task, an upload, a delete request or the stage before it, leaves it pending and ready
      to send. */
  lemma NewTasksAreReady(env: Env, sys: System, a: Action)
    requires OutboxPaired(sys.store)
    ensures NewTasksReady(sys.store, Perform(env, sys, a).store)
  {
    if a.Upload? || a.RequestDelete? {
      RequestRows(env, sys, a);
    } else if a.Advance? && a.worker in sys.workers {
      AdvanceIsStep(env, sys, a.worker, a.reply);
      WorkerStepRows(env, sys.store, sys.workers[a.worker], a.reply);
    }
  }

  // ----- Over a run -----

  ghost predicate Sent(s: Store, id: TaskId) {
    id in s.outbox && s.outbox[id].published
  }

  lemma AtIsGood(env: Env, actions: seq<Action>, i: nat)
    requires env.Valid() && i <= |actions|
    ensures SystemInvariant(env, At(env, actions, i))
  {
    RunKeeps(env, INITIAL, actions[..i]);
  }

  lemma AtEvolves(env: Env, actions: seq<Action>, i: nat)
    requires env.Valid() && i < |actions|
    ensures At(env, actions, i).store.now <= At(env, actions, i + 1).store.now
  {
    AtStep(env, actions, i);
    AtIsGood(env, actions, i);
    EveryActionKeeps(env, At(env, actions, i), actions[i]);
  }

  predicate RowRetriedAt(env: Env, actions: seq<Action>, i: nat, id: TaskId) {
    i < |actions| && RetriesByHand(At(env, actions, i), actions[i], id)
  }

  predicate RowClaimedAt(env: Env, actions: seq<Action>, i: nat, id: TaskId) {
    i < |actions| && ClaimsRow(At(env, actions, i), actions[i], id)
  }

  lemma {:induction false} SentStaysSent(env: Env, actions: seq<Action>, i: nat, j: nat, id: TaskId)
    requires env.Valid() && i <= j <= |actions| && Sent(At(env, actions, i).store, id)
    requires forall k :: i <= k < j ==> !RowRetriedAt(env, actions, k, id)
    ensures Sent(At(env, actions, j).store, id)
    decreases j
  {
    if i < j {
      SentStaysSent(env, actions, i, j - 1, id);
      AtIsGood(env, actions, j - 1);
      AtStep(env, actions, j - 1);
      assert !RowRetriedAt(env, actions, j - 1, id);
      EveryRowFate(env, At(env, actions, j - 1), actions[j - 1], id);
    }
  }

  /** A message that has been confirmed is never claimed again, unless its task is retried by hand. */
  lemma ConfirmedIsNotSentAgain(env: Env, actions: seq<Action>, i: nat, j: nat, id: TaskId)
    requires env.Valid() && i < j && RowClaimedAt(env, actions, j, id)
    requires actions[i] == ConfirmPublished(id) && id in At(env, actions, i).store.outbox
    ensures exists k :: i < k < j && RowRetriedAt(env, actions, k, id)
  {
    if forall k :: i < k < j ==> !RowRetriedAt(env, actions, k, id) {
      AtStep(env, actions, i);
      SentStaysSent(env, actions, i + 1, j, id);
    }
  }

  /** Out of reach of publishers: sent, or locked since then or later. */
  ghost predicate RowHeld(s: Store, id: TaskId, since: int) {
    && id in s.outbox
    && (s.outbox[id].published || (s.outbox[id].locked.Some? && since <= s.outbox[id].locked.value))
  }

  predicate RowReleasedAt(env: Env, actions: seq<Action>, i: nat, id: TaskId) {
    RowRetriedAt(env, actions, i, id) || (i < |actions| && actions[i] == RejectPublished(id))
  }

  lemma RowHeldStep(env: Env, sys: System, a: Action, id: TaskId, since: int)
    requires OutboxPaired(sys.store) && RowHeld(sys.store, id, since) && since <= sys.store.now
    requires !RetriesByHand(sys, a, id) && a != RejectPublished(id)
    ensures RowHeld(Perform(env, sys, a).store, id, since)
  {
    EveryRowFate(env, sys, a, id);
  }

  lemma RowClaimHolds(env: Env, sys: System, a: Action, id: TaskId)
    requires OutboxPaired(sys.store) && ClaimsRow(sys, a, id)
    ensures RowHeld(Perform(env, sys, a).store, id, sys.store.now)
  {
    EveryRowFate(env, sys, a, id);
  }

  /** The row is held since the claim at `i`, which is not in the future. */
  ghost predicate RowHeldAt(env: Env, actions: seq<Action>, i: nat, j: nat, id: TaskId)
    requires i <= |actions| && j <= |actions|
  {
    && RowHeld(At(env, actions, j).store, id, At(env, actions, i).store.now)
    && At(env, actions, i).store.now <= At(env, actions, j).store.now
  }

  lemma RowHeldNext(env: Env, actions: seq<Action>, i: nat, j: nat, id: TaskId)
    requires env.Valid() && i <= j < |actions| && !RowReleasedAt(env, actions, j, id)
    requires RowHeldAt(env, actions, i, j, id)
    ensures RowHeldAt(env, actions, i, j + 1, id)
  {
    AtIsGood(env, actions, j);
    AtStep(env, actions, j);
    AtEvolves(env, actions, j);
    RowHeldStep(env, At(env, actions, j), actions[j], id, At(env, actions, i).store.now);
  }

  lemma RowHeldFirst(env: Env, actions: seq<Action>, i: nat, id: TaskId)
    requires env.Valid() && RowClaimedAt(env, actions, i, id)
    ensures RowHeldAt(env, actions, i, i + 1, id)
  {
    AtIsGood(env, actions, i);
    AtStep(env, actions, i);
    AtEvolves(env, actions, i);
    RowClaimHolds(env, At(env, actions, i), actions[i], id);
  }

  lemma {:induction false} RowHeldUntil(env: Env, actions: seq<Action>, i: nat, j: nat, id: TaskId)
    requires env.Valid() && i < j <= |actions| && RowClaimedAt(env, actions, i, id)
    requires forall k :: i < k < j ==> !RowReleasedAt(env, actions, k, id)
    ensures RowHeldAt(env, actions, i, j, id)
    decreases j
  {
    if j == i + 1 {
      RowHeldFirst(env, actions, i, id);
    } else {
      RowHeldUntil(env, actions, i, j - 1, id);
      RowHeldNext(env, actions, i, j - 1, id);
    }
  }

  /** Two claims of one row are more than a minute apart, unless the first one was rejected or the task was
      retried by hand in between. */
  lemma RowClaimsAreExclusive(env: Env, actions: seq<Action>, i: nat, j: nat, id: TaskId)
    requires env.Valid() && i < j && RowClaimedAt(env, actions, i, id) && RowClaimedAt(env, actions, j, id)
    ensures (exists k :: i < k < j && RowReleasedAt(env, actions, k, id))
         || At(env, actions, i).store.now + 60 < At(env, actions, j).store.now
  {
    if forall k :: i < k < j ==> !RowReleasedAt(env, actions, k, id) {
      RowHeldUntil(env, actions, i, j, id);
    }
  }

  // ----- Nothing is lost -----

  /** A row that is not sent becomes due after some time and stays due. */
  lemma UnsentBecomesDue(env: Env, sys: System, id: TaskId) returns (seconds: nat)
    requires id in sys.store.outbox && !sys.store.outbox[id].published
    ensures forall n: nat :: OutboxDue(Perform(env, sys, Tick(n)).store, id) <==> seconds <= n
  {
    var s, row := sys.store, sys.store.outbox[id];
    var wait := if row.locked.Some? && row.nextAttempt < row.locked.value + 61 then row.locked.value + 61
                else row.nextAttempt;
    seconds := if wait < s.now then 0 else wait - s.now;
  }

  /** Whether a task can be claimed is decided by its status and its lease alone. */
  lemma LeaseDecides(env: Env, actions: seq<Action>, id: TaskId, seconds: nat)
    requires env.Valid() && id in Reached(env, actions).tasks
    ensures var task := Reached(env, actions).tasks[id];
            var later := Perform(env, Execute(env, INITIAL, actions), Tick(seconds)).store;
            Claim(later, id, env.lease).Applied? <==>
              match task.status
              case Pending => true
              case Running => task.lease.Some? && task.lease.value <= Reached(env, actions).now + seconds
              case Succeeded => false
              case Errored => false
  {
    RunningTasksAreLeased(env, actions, id);
  }

  function Own(s: Store, id: TaskId): Delivery
    requires id in s.tasks
  {
    Delivery(s.tasks[id].kind, Payload(id, s.tasks[id]))
  }

  /** The message is claimed, published and delivered, and the worker claims the task. */
  function Start(s: Store, id: TaskId, n: nat): seq<Action>
    requires id in s.tasks
  {
    [ClaimOutbox(id), Publish(Own(s, id)), Deliver(n, Own(s, id)), Advance(n, Reply(Arrives, Permanent))]
  }

  ghost predicate Started(env: Env, sys: System, id: TaskId, n: nat) {
    && id in sys.store.tasks && sys.store.tasks[id].status == Running
    && sys.store.tasks[id].lease == Some(sys.store.now + if env.lease < 1 then 1 else env.lease)
    && n in sys.workers && sys.workers[n].pc == AtRead && sys.workers[n].subject == sys.store.tasks[id].kind
    && sys.workers[n].message.task == id && sys.workers[n].message.document == sys.store.tasks[id].document
  }

  lemma FourActions(env: Env, sys: System, a: Action, b: Action, c: Action, d: Action)
    ensures Execute(env, sys, [a, b, c, d])
         == Perform(env, Perform(env, Perform(env, Perform(env, sys, a), b), c), d)
  {
    assert [a, b, c, d][1..] == [b, c, d] && [b, c, d][1..] == [c, d] && [c, d][1..] == [d];
    var second := Perform(env, sys, a);
    var third := Perform(env, second, b);
    assert Execute(env, third, [c, d]) == Execute(env, Perform(env, third, c), [d]);
    assert Execute(env, second, [b, c, d]) == Execute(env, third, [c, d]);
  }

  lemma ClaimReads(env: Env, sys: System, id: TaskId)
    requires OutboxPaired(sys.store) && OutboxDue(sys.store, id)
    ensures id in sys.store.tasks
    ensures var claimed := Perform(env, sys, ClaimOutbox(id));
            && Own(sys.store, id) in claimed.batch && claimed.workers == sys.workers
            && claimed.store == sys.store.(outbox := claimed.store.outbox)
  {
    assert id in sys.store.outbox.Keys;
  }

  lemma DeliveryStarts(env: Env, sys: System, id: TaskId, n: nat, own: Delivery)
    requires own in sys.batch && n !in sys.workers && Claimable(sys.store, id) && own == Own(sys.store, id)
    ensures var taken := Perform(env, Perform(env, sys, Publish(own)), Deliver(n, own));
            Started(env, Perform(env, taken, Advance(n, Reply(Arrives, Permanent))), id, n)
  {
    var taken := Perform(env, Perform(env, sys, Publish(own)), Deliver(n, own));
    assert taken.store == sys.store && taken.workers[n] == Worker(own.subject, own.message, 0, AtClaim);
    var o := Claim(sys.store, id, env.lease);
    assert StepWorker(env, sys.store, taken.workers[n], Reply(Arrives, Permanent))
        == (o.store, taken.workers[n].(pc := AtRead));
  }

  /** A due message reaches a worker that takes up its task. */
  lemma DueMessageStarts(env: Env, sys: System, id: TaskId, n: nat)
    requires OutboxPaired(sys.store) && OutboxDue(sys.store, id) && Claimable(sys.store, id) && n !in sys.workers
    ensures Started(env, Execute(env, sys, Start(sys.store, id, n)), id, n)
  {
    var own := Own(sys.store, id);
    FourActions(env, sys, ClaimOutbox(id), Publish(own), Deliver(n, own), Advance(n, Reply(Arrives, Permanent)));
    ClaimReads(env, sys, id);
    DeliveryStarts(env, Perform(env, sys, ClaimOutbox(id)), id, n, own);
  }

  /** The message of a task can be claimed at once, and a worker takes up the task. */
  ghost predicate StartsAtOnce(env: Env, sys: System, id: TaskId, n: nat) {
    && ClaimsRow(sys, ClaimOutbox(id), id)
    && id in sys.store.tasks && Own(sys.store, id) in Perform(env, sys, ClaimOutbox(id)).batch
    && Started(env, Execute(env, sys, Start(sys.store, id, n)), id, n)
  }

  lemma ReadyStartsAtOnce(env: Env, sys: System, id: TaskId, n: nat)
    requires OutboxPaired(sys.store) && ReadyToSend(sys.store, id) && sys.store.tasks[id].status == Pending
    requires n !in sys.workers
    ensures StartsAtOnce(env, sys, id, n)
  {
    ClaimReads(env, sys, id);
    DueMessageStarts(env, sys, id, n);
  }

  lemma RetryPerforms(env: Env, sys: System, id: TaskId, user: UserId)
    requires Retry(sys.store, id, user).Applied?
    ensures Perform(env, sys, ManualRetry(id, user)) == sys.(store := Retry(sys.store, id, user).store)
  {
  }

  /** After an accepted manual retry the message can be claimed at once, and a worker takes up the task. */
  lemma RetriedTaskStarts(env: Env, sys: System, id: TaskId, user: UserId, n: nat)
    requires env.Valid() && SystemInvariant(env, sys) && Retry(sys.store, id, user).Applied? && n !in sys.workers
    ensures StartsAtOnce(env, Perform(env, sys, ManualRetry(id, user)), id, n)
  {
    EveryActionKeeps(env, sys, ManualRetry(id, user));
    RetryDispatches(sys.store, id, user);
    RetryPerforms(env, sys, id, user);
    ReadyStartsAtOnce(env, Perform(env, sys, ManualRetry(id, user)), id, n);
  }

  /** And so does every new task, whatever made it. */
  lemma NewTaskStarts(env: Env, sys: System, a: Action, id: TaskId, n: nat)
    requires env.Valid() && SystemInvariant(env, sys) && id !in sys.store.tasks
    requires id in Perform(env, sys, a).store.tasks && n !in Perform(env, sys, a).workers
    ensures StartsAtOnce(env, Perform(env, sys, a), id, n)
  {
    EveryActionKeeps(env, sys, a);
    NewTasksAreReady(env, sys, a);
    ReadyStartsAtOnce(env, Perform(env, sys, a), id, n);
  }

  /** No unsent task is lost: in every reachable system a pending task whose message has not been confirmed
      can be started, if need be after waiting for its row to become due. */
  lemma UnsentTaskCanStart(env: Env, actions: seq<Action>, id: TaskId, n: nat) returns (more: seq<Action>)
    requires env.Valid() && id in Reached(env, actions).tasks && Reached(env, actions).tasks[id].status == Pending
    requires !Sent(Reached(env, actions), id) && n !in Execute(env, INITIAL, actions).workers
    ensures Started(env, Execute(env, INITIAL, actions + more), id, n)
  {
    var sys := Execute(env, INITIAL, actions);
    RunKeeps(env, INITIAL, actions);
    assert id in sys.store.outbox.Keys;
    var seconds := UnsentBecomesDue(env, sys, id);
    var due := Perform(env, sys, Tick(seconds));
    DueMessageStarts(env, due, id, n);
    more := [Tick(seconds)] + Start(due.store, id, n);
    assert more[1..] == Start(due.store, id, n);
    ExecuteConcat(env, INITIAL, actions, more);
  }
}
