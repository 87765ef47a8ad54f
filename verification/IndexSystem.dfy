/** The whole indexing pipeline: the store, the message stream, the outbox publishers and any number
    of workers, driven by an arbitrary sequence of actions.  Messages are never taken out of the
    stream, so every delivery may be repeated at any time. */
module IndexSystem {
  import opened Options
  import opened Status
  import opened Chunker
  import opened IndexStore
  import opened IndexInvariant
  import opened IndexWorker

  datatype Delivery = Delivery(subject: TaskKind, message: Message)

  /** `batch` holds the outbox rows publishers have claimed, as they read them. */
  datatype System = System(store: Store, batch: set<Delivery>, stream: set<Delivery>, workers: map<nat, Worker>)

  datatype Action =
    | Upload(document: DocumentId, user: UserId, file: string, n: nat, mode: Mode)
    | RequestDelete(document: DocumentId, user: UserId, n: nat)
    | ManualRetry(task: TaskId, user: UserId)
    | Tick(seconds: nat)
    | ClaimOutbox(task: TaskId)
    | Publish(delivery: Delivery)
    | ConfirmPublished(task: TaskId)
    | RejectPublished(task: TaskId)
    | Deliver(worker: nat, delivery: Delivery)
    | Advance(worker: nat, reply: Reply)
    | Crash(worker: nat)

  const EMPTY_STORE := Store(map[], map[], map[], map[], {}, 0)
  const INITIAL := System(EMPTY_STORE, {}, {}, map[])

  function WithStore(sys: System, o: Outcome): System {
    if o.Applied? then sys.(store := o.store) else sys
  }

  function Perform(env: Env, sys: System, a: Action): System {
    var s := sys.store;
    match a
    case Upload(d, user, file, n, mode) => WithStore(sys, CreateWithIndexTask(s, d, user, file, Fresh(n), mode))
    case RequestDelete(d, user, n) => WithStore(sys, CreateDeleteTask(s, d, user, Fresh(n)))
    case ManualRetry(id, user) => WithStore(sys, Retry(s, id, user))
    case Tick(seconds) => sys.(store := s.(now := s.now + seconds))
    case ClaimOutbox(id) =>
      var o := LockOutboxRow(s, id);
      if o.Applied? then
        sys.(store := o.store, batch := sys.batch + {Delivery(s.outbox[id].subject, s.outbox[id].message)})
      else sys
    case Publish(delivery) => if delivery in sys.batch then sys.(stream := sys.stream + {delivery}) else sys
    case ConfirmPublished(id) => WithStore(sys, MarkPublished(s, id))
    case RejectPublished(id) => WithStore(sys, MarkFailed(s, id))
    case Deliver(n, delivery) =>
      if delivery in sys.stream && n !in sys.workers then
        sys.(workers := sys.workers[n := Worker(delivery.subject, delivery.message, 0, AtClaim)])
      else sys
    case Advance(n, reply) =>
      if n in sys.workers then
        var (s', w') := StepWorker(env, s, sys.workers[n], reply);
        sys.(store := s', workers := sys.workers[n := w'])
      else sys
    case Crash(n) => sys.(workers := sys.workers - {n})
  }

  function Execute(env: Env, sys: System, actions: seq<Action>): System
    decreases |actions|
  {
    if actions == [] then sys else Execute(env, Perform(env, sys, actions[0]), actions[1..])
  }

  ghost predicate SystemInvariant(env: Env, sys: System) {
    && Invariant(env, sys.store)
    && (forall x :: x in sys.batch + sys.stream ==> Matches(sys.store, x.subject, x.message))
    && (forall n :: n in sys.workers ==> Knows(env, sys.store, sys.workers[n]))
  }

  ghost predicate ActionKeeps(env: Env, sys: System, a: Action) {
    SystemInvariant(env, Perform(env, sys, a)) && Evolves(sys.store, Perform(env, sys, a).store)
  }

  /** Messages on their way and workers other than the one that moves are untouched by evolution. */
  lemma SurroundingsStay(env: Env, sys: System, s': Store)
    requires SystemInvariant(env, sys) && Evolves(sys.store, s')
    ensures forall x :: x in sys.batch + sys.stream ==> Matches(s', x.subject, x.message)
    ensures forall n :: n in sys.workers ==> Knows(env, s', sys.workers[n])
  {
    forall x | x in sys.batch + sys.stream
      ensures Matches(s', x.subject, x.message)
    {
      MatchStays(sys.store, s', x.subject, x.message);
    }
    forall n | n in sys.workers
      ensures Knows(env, s', sys.workers[n])
    {
      KnowledgeIsStable(env, sys.store, s', sys.workers[n]);
    }
  }

  lemma StoreChangeKeeps(env: Env, sys: System, s': Store)
    requires SystemInvariant(env, sys) && Invariant(env, s') && Evolves(sys.store, s')
    ensures SystemInvariant(env, sys.(store := s'))
  {
    SurroundingsStay(env, sys, s');
  }

  lemma RequestKeeps(env: Env, sys: System, a: Action)
    requires SystemInvariant(env, sys) && (a.Upload? || a.RequestDelete? || a.ManualRetry?)
    ensures ActionKeeps(env, sys, a)
  {
    var s := sys.store;
    EvolvesReflexive(s);
    match a
    case Upload(d, user, file, n, mode) =>
      var o := CreateWithIndexTask(s, d, user, file, Fresh(n), mode);
      if o.Applied? {
        UploadKeeps(env, s, d, user, file, Fresh(n), mode);
        StoreChangeKeeps(env, sys, o.store);
      }
    case RequestDelete(d, user, n) =>
      var o := CreateDeleteTask(s, d, user, Fresh(n));
      if o.Applied? {
        DeleteRequestKeeps(env, s, d, user, Fresh(n));
        StoreChangeKeeps(env, sys, o.store);
      }
    case ManualRetry(id, user) =>
      var o := Retry(s, id, user);
      if o.Applied? {
        RetryKeeps(env, s, id, user);
        StoreChangeKeeps(env, sys, o.store);
      }
  }

  lemma OutboxOnlyKeeps(env: Env, sys: System, s': Store)
    requires SystemInvariant(env, sys) && sys.store.now <= s'.now
    requires s' == sys.store.(outbox := s'.outbox, now := s'.now) && OutboxPaired(s')
    ensures SystemInvariant(env, sys.(store := s')) && Evolves(sys.store, s')
  {
    OutboxChangeKeeps(env, sys.store, s');
    StoreChangeKeeps(env, sys, s');
  }

  lemma PublisherKeeps(env: Env, sys: System, a: Action)
    requires SystemInvariant(env, sys)
    requires a.Tick? || a.ConfirmPublished? || a.RejectPublished?
    ensures ActionKeeps(env, sys, a)
  {
    EvolvesReflexive(sys.store);
    var s' := Perform(env, sys, a).store;
    assert OutboxPaired(s');
    OutboxOnlyKeeps(env, sys, s');
    assert Perform(env, sys, a) == sys.(store := s');
  }

  lemma ClaimOutboxKeeps(env: Env, sys: System, id: TaskId)
    requires SystemInvariant(env, sys)
    ensures ActionKeeps(env, sys, ClaimOutbox(id))
  {
    EvolvesReflexive(sys.store);
    var o := LockOutboxRow(sys.store, id);
    if o.Applied? {
      assert OutboxPaired(o.store);
      OutboxOnlyKeeps(env, sys, o.store);
      assert TaskShape(o.store, id);
      assert Matches(o.store, o.store.outbox[id].subject, o.store.outbox[id].message);
    }
  }

  lemma AdvanceKeeps(env: Env, sys: System, n: nat, reply: Reply)
    requires env.Valid() && SystemInvariant(env, sys) && n in sys.workers
    ensures ActionKeeps(env, sys, Advance(n, reply))
  {
    var (s', w') := StepWorker(env, sys.store, sys.workers[n], reply);
    WorkerStepKeeps(env, sys.store, sys.workers[n], reply);
    SurroundingsStay(env, sys, s');
  }

  lemma EveryActionKeeps(env: Env, sys: System, a: Action)
    requires env.Valid() && SystemInvariant(env, sys)
    ensures ActionKeeps(env, sys, a)
  {
    EvolvesReflexive(sys.store);
    if a.Upload? || a.RequestDelete? || a.ManualRetry? {
      RequestKeeps(env, sys, a);
    } else if a.Tick? || a.ConfirmPublished? || a.RejectPublished? {
      PublisherKeeps(env, sys, a);
    } else if a.ClaimOutbox? {
      ClaimOutboxKeeps(env, sys, a.task);
    } else if a.Advance? && a.worker in sys.workers {
      AdvanceKeeps(env, sys, a.worker, a.reply);
    }
  }

  /** Any run from a good system stays good, and its store only evolves. */
  lemma {:induction false} RunKeeps(env: Env, sys: System, actions: seq<Action>)
    requires env.Valid() && SystemInvariant(env, sys)
    ensures SystemInvariant(env, Execute(env, sys, actions))
    ensures Evolves(sys.store, Execute(env, sys, actions).store)
    decreases |actions|
  {
    if actions == [] {
      EvolvesReflexive(sys.store);
    } else {
      var next := Perform(env, sys, actions[0]);
      EveryActionKeeps(env, sys, actions[0]);
      RunKeeps(env, next, actions[1..]);
      EvolvesTransitive(sys.store, next.store, Execute(env, sys, actions).store);
    }
  }

  /** The store reached from an empty system by some sequence of actions. */
  function Reached(env: Env, actions: seq<Action>): Store {
    Execute(env, INITIAL, actions).store
  }

  lemma ReachedIsGood(env: Env, actions: seq<Action>)
    requires env.Valid()
    ensures Invariant(env, Reached(env, actions))
  {
    RunKeeps(env, INITIAL, actions);
  }

  // ----- Main results -----

  function VectorsOf(s: Store, d: DocumentId): set<ChunkId> {
    set v | v in s.vectors && v.document == d
  }

  /** Index agreement.  In every reachable store a live chunked, embedding or indexed document has
      exactly the chunk rows built from the parse of its file, and a live indexed document has exactly
      their ids as vectors. */
  lemma IndexAgreement(env: Env, actions: seq<Action>, d: DocumentId, id: TaskId)
    requires env.Valid() && IsLive(Reached(env, actions), d) && IsParseTaskOf(Reached(env, actions), id, d)
    ensures var s := Reached(env, actions);
            var doc := s.documents[d];
            var built := env.build(d, env.parse(doc.file, s.tasks[id].mode));
            && (doc.status in {Chunked, Embedding, Indexed} ==> built == Some(ListByDocument(s, d)))
            && (doc.status == Indexed ==> VectorsOf(s, d) == IdsOf(ListByDocument(s, d)))
  {
    var s := Reached(env, actions);
    ReachedIsGood(env, actions);
    assert DocumentBacked(env, s, d);
    ListIsRows(env, s, d);
    IdsOfOwn(Rows(s, d), d);
  }

  /** Stage success implies its successor, under any redelivery and interleaving. */
  lemma SuccessImpliesSuccessor(env: Env, actions: seq<Action>, id: TaskId)
    requires env.Valid() && id in Reached(env, actions).tasks && Reached(env, actions).tasks[id].status == Succeeded
    ensures var s := Reached(env, actions);
            var task := s.tasks[id];
            task.document in s.documents && var doc := s.documents[task.document];
            match task.kind
            case ParseTask => Derived(id, ChunkTask) in s.tasks && s.tasks[Derived(id, ChunkTask)].kind == ChunkTask
            case ChunkTask => Derived(id, EmbedTask) in s.tasks && s.tasks[Derived(id, EmbedTask)].kind == EmbedTask
            case EmbedTask => doc.deleted || doc.status in {Indexed, Deleting, DeleteFailed}
            case DeleteTask => doc.deleted
  {
    var s := Reached(env, actions);
    ReachedIsGood(env, actions);
    assert TaskShape(s, id) && TaskBacked(s, id);
    if s.tasks[id].kind == ParseTask {
      assert TaskShape(s, Derived(id, ChunkTask));
    } else if s.tasks[id].kind == ChunkTask {
      assert TaskShape(s, Derived(id, EmbedTask));
    }
  }

  /** Every task row has exactly one outbox row, which names the same task, document and kind. */
  lemma TasksAndOutboxPaired(env: Env, actions: seq<Action>)
    requires env.Valid()
    ensures var s := Reached(env, actions);
            && s.outbox.Keys == s.tasks.Keys
            && forall id :: id in s.tasks ==>
                 && s.outbox[id].subject == s.tasks[id].kind
                 && s.outbox[id].message.task == id
                 && s.outbox[id].message.document == s.tasks[id].document
  {
    ReachedIsGood(env, actions);
  }

  /** However often messages are redelivered, a document has exactly one parse task and at most one
      chunk task and one embedding task. */
  lemma OneTaskPerStage(env: Env, actions: seq<Action>, i: TaskId, j: TaskId)
    requires env.Valid()
    requires i in Reached(env, actions).tasks && j in Reached(env, actions).tasks
    requires Reached(env, actions).tasks[i].kind == Reached(env, actions).tasks[j].kind != DeleteTask
    requires Reached(env, actions).tasks[i].document == Reached(env, actions).tasks[j].document
    ensures i == j
  {
    var s := Reached(env, actions);
    ReachedIsGood(env, actions);
    var d := s.tasks[i].document;
    assert TaskShape(s, i) && TaskShape(s, j);
    match s.tasks[i].kind
    case ParseTask =>
      assert IsParseTaskOf(s, i, d) && IsParseTaskOf(s, j, d);
    case ChunkTask =>
      assert IsParseTaskOf(s, i.parent, d) && IsParseTaskOf(s, j.parent, d);
    case EmbedTask =>
      assert TaskShape(s, i.parent) && TaskShape(s, j.parent);
      assert IsParseTaskOf(s, i.parent.parent, d) && IsParseTaskOf(s, j.parent.parent, d);
  }

  lemma EveryDocumentHasParseTask(env: Env, actions: seq<Action>, d: DocumentId) returns (id: TaskId)
    requires env.Valid() && d in Reached(env, actions).documents
    ensures IsParseTaskOf(Reached(env, actions), id, d)
  {
    var s := Reached(env, actions);
    ReachedIsGood(env, actions);
    assert HasParseTask(s, d);
    id :| IsParseTaskOf(s, id, d);
  }

  lemma {:induction false} ExecuteConcat(env: Env, sys: System, first: seq<Action>, second: seq<Action>)
    ensures Execute(env, sys, first + second) == Execute(env, Execute(env, sys, first), second)
    decreases |first|
  {
    if first == [] {
      assert first + second == second;
    } else {
      assert (first + second)[1..] == first[1..] + second;
      ExecuteConcat(env, Perform(env, sys, first[0]), first[1..], second);
    }
  }

  /** What no later moment can undo. */
  ghost predicate OnlyForward(s: Store, s': Store) {
    && s.documents.Keys <= s'.documents.Keys && s.tasks.Keys <= s'.tasks.Keys
    && (forall d :: d in s.documents ==> (
          && (InDeletion(s.documents[d].status) ==> InDeletion(s'.documents[d].status))
          && (s.documents[d].status == Indexed ==> s'.documents[d].status in {Indexed, Deleting, DeleteFailed})
          && (s.documents[d].deleted ==> s'.documents[d] == s.documents[d])
          && (s.documents[d].content.Some? ==> s'.documents[d].content == s.documents[d].content)))
    && (forall id :: id in s.tasks && s.tasks[id].status == Succeeded ==> s'.tasks[id] == s.tasks[id])
  }

  lemma EvolutionIsForward(s: Store, s': Store)
    requires Evolves(s, s')
    ensures OnlyForward(s, s')
  {
    assert forall d :: d in s.documents ==> DocumentEvolves(s, s', d);
    assert forall id :: id in s.tasks ==> TaskEvolves(s, s', id);
  }

  /** Later stores of a run. */
  ghost predicate StaysForward(env: Env, actions: seq<Action>, later: seq<Action>) {
    OnlyForward(Reached(env, actions), Reached(env, actions + later))
  }

  /** No resurrection.  Whatever happens later: a document in deletion stays in deletion, an indexed
      one only leaves towards deletion, a soft-deleted one never changes, parsed content is never
      replaced, and a succeeded task never changes. */
  lemma NoResurrection(env: Env, actions: seq<Action>, later: seq<Action>)
    requires env.Valid()
    ensures StaysForward(env, actions, later)
  {
    RunKeeps(env, INITIAL, actions);
    RunKeeps(env, Execute(env, INITIAL, actions), later);
    ExecuteConcat(env, INITIAL, actions, later);
    EvolutionIsForward(Reached(env, actions), Reached(env, actions + later));
  }

  // ----- Batches -----

  function ClaimAll(ids: seq<TaskId>): (actions: seq<Action>)
    ensures |actions| == |ids| && forall i :: 0 <= i < |ids| ==> actions[i] == ClaimOutbox(ids[i])
  {
    seq(|ids|, i requires 0 <= i < |ids| => ClaimOutbox(ids[i]))
  }

  /** A publisher that claims a batch with one statement leaves the store its rows one by one would. */
  lemma {:induction false} BatchIsActions(env: Env, sys: System, ids: seq<TaskId>)
    ensures Execute(env, sys, ClaimAll(ids)).store == LockAll(sys.store, ids)
  {
    if ids != [] {
      var front, last := ids[..|ids| - 1], ids[|ids| - 1];
      BatchIsActions(env, sys, front);
      assert ClaimAll(ids) == ClaimAll(front) + [ClaimOutbox(last)];
      ExecuteConcat(env, sys, ClaimAll(front), [ClaimOutbox(last)]);
      var before := Execute(env, sys, ClaimAll(front));
      assert Execute(env, before, [ClaimOutbox(last)]) == Perform(env, before, ClaimOutbox(last));
    }
  }

  // ----- The real chunker -----

  /** The deployment whose chunker is the one of documentchunk/chunker.go, with any configuration. */
  function Deployment(parse: (string, Mode) -> ParsedText, config: Config, version: nat, lease: int): Env {
    Env(parse, (d: DocumentId, parsed) => BuildRows(d, version, parsed, config), lease)
  }

  /** The chunker meets what the pipeline asks of it, so the results above hold with it in place. */
  lemma DeploymentIsValid(parse: (string, Mode) -> ParsedText, config: Config, version: nat, lease: int)
    requires 1 <= lease
    ensures Deployment(parse, config, version, lease).Valid()
  {
    var env := Deployment(parse, config, version, lease);
    forall d, p | env.build(d, p).Some?
      ensures OwnLiveRows(d, env.build(d, p).value)
    {
      BuiltRowsWellFormed(d, version, p, config);
    }
  }
}
