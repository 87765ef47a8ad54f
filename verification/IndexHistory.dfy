/** What a whole run says about one task: who claimed it, how often it was put back, and how often it
    was retried automatically and by hand (indextaskrepo.go Claim, ScheduleRetry, Retry). */
module IndexHistory {
  import opened Arithmetic
  import opened Options
  import opened Status
  import opened Chunker
  import opened IndexInvariant
  import opened IndexStore
  import opened IndexWorker
  import opened IndexSystem

  // ----- What one action does to one task -----

  predicate Moves(sys: System, a: Action, id: TaskId) {
    a.Advance? && a.worker in sys.workers && a.reply.transport != LostBefore && sys.workers[a.worker].message.task == id
  }

  /** The action is a claim of the task that the database accepts. */
  predicate ClaimsTask(sys: System, a: Action, id: TaskId) {
    Moves(sys, a, id) && sys.workers[a.worker].pc.AtClaim? && Claimable(sys.store, id)
  }

  predicate RetriesAutomatically(sys: System, a: Action, id: TaskId) {
    && Moves(sys, a, id) && sys.workers[a.worker].pc.Schedule? && sys.workers[a.worker].pc.failure != Permanent
    && ScheduleRetry(sys.store, id).Applied?
  }

  predicate RetriesByHand(sys: System, a: Action, id: TaskId) {
    a.ManualRetry? && a.task == id && Retry(sys.store, id, a.user).Applied?
  }

  predicate ReturnsToPending(sys: System, a: Action, id: TaskId) {
    RetriesAutomatically(sys, a, id) || RetriesByHand(sys, a, id)
  }

  /** The only four things that can happen to an existing task. */
  ghost predicate TaskFate(env: Env, sys: System, a: Action, id: TaskId)
    requires id in sys.store.tasks
  {
    var sys' := Perform(env, sys, a);
    id in sys'.store.tasks && sys'.store.now >= sys.store.now &&
    var task, task' := sys.store.tasks[id], sys'.store.tasks[id];
    if ClaimsTask(sys, a, id) then
      task' == task.(status := Running, lease := Some(sys.store.now + Max(env.lease, 1)))
    else if ReturnsToPending(sys, a, id) then
      task' == task.(status := Pending, retries := task.retries + 1, lease := None)
    else
      task' == task || (task' == task.(status := task'.status, lease := None) && task'.status in {Succeeded, Errored})
  }

  /** The program counters whose statement writes the task table. */
  predicate WritesTasks(pc: Pc) {
    pc.AtClaim? || pc.EnqueueNext? || pc.Finish? || pc.Schedule? || pc.FailTaskFirst? || pc.FailTask?
  }

  lemma DocumentStatementsLeaveTasks(env: Env, s: Store, w: Worker, reply: Reply)
    requires w.pc.ParseMark? || w.pc.ParseComplete? || w.pc.ChunkMark? || w.pc.ChunkDone? || w.pc.EmbedMark?
             || w.pc.EmbedDone?
             || w.pc.ResetDocument? || w.pc.FailDocument?
    ensures HandlerStep(env, s, w, reply).0.tasks == s.tasks && HandlerStep(env, s, w, reply).0.now == s.now
  {
  }

  lemma OthersLeaveTasks(env: Env, s: Store, w: Worker, reply: Reply)
    requires !WritesTasks(w.pc)
    ensures HandlerStep(env, s, w, reply).0.tasks == s.tasks && HandlerStep(env, s, w, reply).0.now == s.now
  {
    if w.pc.ParseMark? || w.pc.ParseComplete? || w.pc.ChunkMark? || w.pc.ChunkDone? || w.pc.EmbedMark?
        || w.pc.EmbedDone?
       || w.pc.ResetDocument? || w.pc.FailDocument? {
      DocumentStatementsLeaveTasks(env, s, w, reply);
    }
  }

  lemma FollowUpOnlyAdds(env: Env, s: Store, w: Worker, reply: Reply)
    requires w.pc.EnqueueNext?
    ensures var s' := HandlerStep(env, s, w, reply).0;
            && s'.now == s.now
            && (forall id :: id in s.tasks ==> id in s'.tasks && s'.tasks[id] == s.tasks[id])
            && (forall id :: id in s'.tasks && id !in s.tasks ==> s'.tasks[id].retries == 0)
  {
    var id' := Derived(w.message.task, NextKind(w.subject));
    var after := CreateTask(s, id', NextTask(w));
    if id' !in s.tasks {
      assert after.tasks == s.tasks[id' := NextTask(w)];
    }
  }

  /** The four things again, for one step of a worker on the task it was sent. */
  ghost predicate StepFate(env: Env, s: Store, w: Worker, reply: Reply, task: Task) {
    var s' := HandlerStep(env, s, w, reply).0;
    var id := w.message.task;
    && s'.now == s.now && id in s'.tasks
    && s'.tasks == s.tasks[id := s'.tasks[id]]
    && var task' := s'.tasks[id];
       if reply.transport != LostBefore && w.pc.AtClaim? && Claimable(s, id) then
         task' == task.(status := Running, lease := Some(s.now + Max(env.lease, 1)))
       else if reply.transport != LostBefore && w.pc.Schedule? && w.pc.failure != Permanent
               && ScheduleRetry(s, id).Applied? then
         task' == task.(status := Pending, retries := task.retries + 1, lease := None)
       else
         || task' == task
         || (task' == task.(status := task'.status, lease := None) && task'.status in {Succeeded, Errored})
  }

  lemma SameTaskKept(s: Store, id: TaskId)
    requires id in s.tasks
    ensures s.tasks == s.tasks[id := s.tasks[id]]
  {
  }

  lemma ClaimFate(env: Env, s: Store, w: Worker, reply: Reply)
    requires w.message.task in s.tasks && w.pc.AtClaim?
    ensures StepFate(env, s, w, reply, s.tasks[w.message.task])
  {
    SameTaskKept(s, w.message.task);
  }

  lemma ScheduleFate(env: Env, s: Store, w: Worker, reply: Reply)
    requires w.message.task in s.tasks && w.pc.Schedule?
    ensures StepFate(env, s, w, reply, s.tasks[w.message.task])
  {
    SameTaskKept(s, w.message.task);
  }

  lemma OutcomeFate(env: Env, s: Store, w: Worker, reply: Reply)
    requires w.message.task in s.tasks && (w.pc.Finish? || w.pc.FailTaskFirst? || w.pc.FailTask?)
    ensures StepFate(env, s, w, reply, s.tasks[w.message.task])
  {
    SameTaskKept(s, w.message.task);
    var status := if w.pc.Finish? then Succeeded else Errored;
    assert HandlerStep(env, s, w, reply).0 == s
        || HandlerStep(env, s, w, reply).0 == UpdateTaskStatus(s, w.message.task, status).store;
  }

  /** A worker's message names a task of the store or the step changes no task at all. */
  lemma StrangerFate(env: Env, s: Store, w: Worker, reply: Reply)
    requires w.message.task !in s.tasks && WritesTasks(w.pc) && !w.pc.EnqueueNext?
    ensures HandlerStep(env, s, w, reply).0 == s
  {
  }

  lemma OwnTaskFate(env: Env, s: Store, w: Worker, reply: Reply)
    requires w.message.task in s.tasks && WritesTasks(w.pc) && !w.pc.EnqueueNext?
    ensures StepFate(env, s, w, reply, s.tasks[w.message.task])
  {
    if w.pc.AtClaim? {
      ClaimFate(env, s, w, reply);
    } else if w.pc.Schedule? {
      ScheduleFate(env, s, w, reply);
    } else {
      OutcomeFate(env, s, w, reply);
    }
  }

  /** What a worker's step does to the store is what the action does to the system's. */
  lemma AdvanceIsStep(env: Env, sys: System, n: nat, reply: Reply)
    requires n in sys.workers
    ensures Perform(env, sys, Advance(n, reply)).store == HandlerStep(env, sys.store, sys.workers[n], reply).0
  {
  }

  /** A task from which a step keeps its hands off. */
  lemma UntouchedFate(env: Env, sys: System, a: Action, id: TaskId)
    requires id in sys.store.tasks && a.Advance? && a.worker in sys.workers
    requires var s' := Perform(env, sys, a).store;
             id in s'.tasks && s'.tasks[id] == sys.store.tasks[id] && s'.now == sys.store.now
    requires !ClaimsTask(sys, a, id) && !ReturnsToPending(sys, a, id)
    ensures TaskFate(env, sys, a, id)
  {
  }

  lemma OwnStepFate(env: Env, sys: System, n: nat, reply: Reply)
    requires n in sys.workers && sys.workers[n].message.task in sys.store.tasks
    requires StepFate(env, sys.store, sys.workers[n], reply, sys.store.tasks[sys.workers[n].message.task])
    ensures TaskFate(env, sys, Advance(n, reply), sys.workers[n].message.task)
  {
    AdvanceIsStep(env, sys, n, reply);
  }

  lemma TaskWriterFate(env: Env, sys: System, a: Action, id: TaskId)
    requires id in sys.store.tasks && a.Advance? && a.worker in sys.workers
    requires WritesTasks(sys.workers[a.worker].pc) && !sys.workers[a.worker].pc.EnqueueNext?
    ensures TaskFate(env, sys, a, id)
  {
    var s, w := sys.store, sys.workers[a.worker];
    AdvanceIsStep(env, sys, a.worker, a.reply);
    if w.message.task !in s.tasks {
      StrangerFate(env, s, w, a.reply);
      UntouchedFate(env, sys, a, id);
    } else {
      OwnTaskFate(env, s, w, a.reply);
      if w.message.task == id {
        OwnStepFate(env, sys, a.worker, a.reply);
      } else {
        UntouchedFate(env, sys, a, id);
      }
    }
  }

  /** The effect of the other steps: no existing task changes. */
  lemma OtherStepsLeaveTask(env: Env, s: Store, w: Worker, reply: Reply, id: TaskId)
    requires id in s.tasks && (w.pc.EnqueueNext? || !WritesTasks(w.pc))
    ensures var s' := HandlerStep(env, s, w, reply).0; id in s'.tasks && s'.tasks[id] == s.tasks[id] && s'.now == s.now
  {
    if w.pc.EnqueueNext? {
      FollowUpOnlyAdds(env, s, w, reply);
    } else {
      OthersLeaveTasks(env, s, w, reply);
    }
  }

  lemma WorkerTaskFate(env: Env, sys: System, a: Action, id: TaskId)
    requires id in sys.store.tasks && a.Advance? && a.worker in sys.workers
    ensures TaskFate(env, sys, a, id)
  {
    var w := sys.workers[a.worker];
    if w.pc.EnqueueNext? || !WritesTasks(w.pc) {
      AdvanceIsStep(env, sys, a.worker, a.reply);
      OtherStepsLeaveTask(env, sys.store, w, a.reply, id);
      UntouchedFate(env, sys, a, id);
    } else {
      TaskWriterFate(env, sys, a, id);
    }
  }

  lemma NewTaskIsUntried(env: Env, sys: System, a: Action, id: TaskId)
    requires id !in sys.store.tasks
    ensures RetriesOf(Perform(env, sys, a).store, id) == 0 && !ReturnsToPending(sys, a, id)
  {
    if a.Advance? && a.worker in sys.workers {
      var w := sys.workers[a.worker];
      if !WritesTasks(w.pc) {
        OthersLeaveTasks(env, sys.store, w, a.reply);
      } else if w.pc.EnqueueNext? {
        FollowUpOnlyAdds(env, sys.store, w, a.reply);
      }
    }
  }

  lemma EveryTaskFate(env: Env, sys: System, a: Action, id: TaskId)
    requires id in sys.store.tasks
    ensures TaskFate(env, sys, a, id)
  {
    if a.Advance? && a.worker in sys.workers {
      WorkerTaskFate(env, sys, a, id);
    }
  }

  // ----- Claim exclusivity -----

  /** The system after the first `i` actions. */
  function At(env: Env, actions: seq<Action>, i: nat): System
    requires i <= |actions|
  {
    Execute(env, INITIAL, actions[..i])
  }

  lemma AtStep(env: Env, actions: seq<Action>, i: nat)
    requires i < |actions|
    ensures At(env, actions, i + 1) == Perform(env, At(env, actions, i), actions[i])
  {
    assert actions[..i + 1] == actions[..i] + [actions[i]];
    ExecuteConcat(env, INITIAL, actions[..i], [actions[i]]);
  }

  predicate ClaimAt(env: Env, actions: seq<Action>, i: nat, id: TaskId) {
    i < |actions| && ClaimsTask(At(env, actions, i), actions[i], id)
  }

  predicate ReturnAt(env: Env, actions: seq<Action>, i: nat, id: TaskId) {
    i < |actions| && ReturnsToPending(At(env, actions, i), actions[i], id)
  }

  /** The task is not up for grabs before `until`. */
  predicate Held(s: Store, id: TaskId, until: int) {
    && id in s.tasks && s.tasks[id].status != Pending
    && (s.tasks[id].status == Running ==> s.tasks[id].lease.Some? && until <= s.tasks[id].lease.value)
  }

  lemma HeldStaysHeld(env: Env, sys: System, a: Action, id: TaskId, until: int)
    requires Held(sys.store, id, until) && until <= sys.store.now + Max(env.lease, 1) && !ReturnsToPending(sys, a, id)
    ensures Held(Perform(env, sys, a).store, id, until) && sys.store.now <= Perform(env, sys, a).store.now
  {
    EveryTaskFate(env, sys, a, id);
  }

  lemma {:induction false} HeldUntil(env: Env, actions: seq<Action>, i: nat, j: nat, id: TaskId)
    requires i < j <= |actions| && ClaimAt(env, actions, i, id)
    requires forall k :: i < k < j ==> !ReturnAt(env, actions, k, id)
    ensures var until := At(env, actions, i).store.now + Max(env.lease, 1);
            Held(At(env, actions, j).store, id, until) && At(env, actions, i).store.now <= At(env, actions, j).store.now
    decreases j
  {
    var until := At(env, actions, i).store.now + Max(env.lease, 1);
    AtStep(env, actions, j - 1);
    if j == i + 1 {
      EveryTaskFate(env, At(env, actions, i), actions[i], id);
    } else {
      HeldUntil(env, actions, i, j - 1, id);
      assert !ReturnAt(env, actions, j - 1, id);
      HeldStaysHeld(env, At(env, actions, j - 1), actions[j - 1], id, until);
    }
  }

  /** Claim exclusivity: two accepted claims of one task are separated by the expiry of the first
      lease or by a retry that put the task back to pending. */
  lemma ClaimsAreExclusive(env: Env, actions: seq<Action>, i: nat, j: nat, id: TaskId)
    requires i < j && ClaimAt(env, actions, i, id) && ClaimAt(env, actions, j, id)
    ensures (exists k :: i < k < j && ReturnAt(env, actions, k, id))
         || At(env, actions, i).store.now + Max(env.lease, 1) <= At(env, actions, j).store.now
  {
    if forall k :: i < k < j ==> !ReturnAt(env, actions, k, id) {
      HeldUntil(env, actions, i, j, id);
    }
  }

  /** A task is running exactly while it has a lease. */
  lemma RunningTasksAreLeased(env: Env, actions: seq<Action>, id: TaskId)
    requires env.Valid() && id in Reached(env, actions).tasks
    ensures Reached(env, actions).tasks[id].status == Running <==> Reached(env, actions).tasks[id].lease.Some?
  {
    ReachedIsGood(env, actions);
    assert TaskShape(Reached(env, actions), id) && TaskBacked(Reached(env, actions), id);
  }

  // ----- Retry counts -----

  function AutomaticRetries(env: Env, sys: System, actions: seq<Action>, id: TaskId): nat
    decreases |actions|
  {
    if actions == [] then 0
    else (if RetriesAutomatically(sys, actions[0], id) then 1 else 0)
         + AutomaticRetries(env, Perform(env, sys, actions[0]), actions[1..], id)
  }

  function ManualRetries(env: Env, sys: System, actions: seq<Action>, id: TaskId): nat
    decreases |actions|
  {
    if actions == [] then 0
    else (if RetriesByHand(sys, actions[0], id) then 1 else 0)
         + ManualRetries(env, Perform(env, sys, actions[0]), actions[1..], id)
  }

  function RetriesOf(s: Store, id: TaskId): nat {
    if id in s.tasks then s.tasks[id].retries else 0
  }

  lemma RetriesOfStep(env: Env, sys: System, a: Action, id: TaskId)
    ensures RetriesOf(Perform(env, sys, a).store, id)
         == RetriesOf(sys.store, id) + (if ReturnsToPending(sys, a, id) then 1 else 0)
    ensures RetriesAutomatically(sys, a, id) ==> RetriesOf(sys.store, id) < MAX_AUTOMATIC_RETRIES
  {
    if id in sys.store.tasks {
      EveryTaskFate(env, sys, a, id);
    } else {
      NewTaskIsUntried(env, sys, a, id);
    }
  }

  lemma {:induction false} RetriesAddUp(env: Env, sys: System, actions: seq<Action>, id: TaskId)
    ensures RetriesOf(Execute(env, sys, actions).store, id)
         == RetriesOf(sys.store, id) + AutomaticRetries(env, sys, actions, id) + ManualRetries(env, sys, actions, id)
    ensures AutomaticRetries(env, sys, actions, id) == 0
         || RetriesOf(sys.store, id) + AutomaticRetries(env, sys, actions, id) <= MAX_AUTOMATIC_RETRIES
    decreases |actions|
  {
    if actions != [] {
      RetriesOfStep(env, sys, actions[0], id);
      RetriesAddUp(env, Perform(env, sys, actions[0]), actions[1..], id);
    }
  }

  /** Over a whole run a task is retried automatically at most three times, and its retry count is the
      number of its automatic and manual retries. */
  lemma RetriesAreBounded(env: Env, actions: seq<Action>, id: TaskId)
    ensures AutomaticRetries(env, INITIAL, actions, id) <= 3
    ensures RetriesOf(Reached(env, actions), id)
         == AutomaticRetries(env, INITIAL, actions, id) + ManualRetries(env, INITIAL, actions, id)
  {
    RetriesAddUp(env, INITIAL, actions, id);
  }
}
