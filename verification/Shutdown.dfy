/** Shutdown of the worker manager (worker/manager.go): deliveries, concurrent calls of Close, the goroutine
    that waits for them, and the outbox loop, interleaved step by step around one mutex. */
module Shutdown {

  // ----- Threads -----

  /** A delivered message: before the mutex, holding it, holding it after inFlight.Add, in its handler. */
  datatype Delivery = Arrived | Holding | Added | Handling | Handled | Rejected

  /** A call of Close: before the mutex, holding it, and the steps of its first-caller branch. */
  datatype Closer = Called | Entered | Marked | Stopped | Leaving | Waiting | Returned | TimedOut

  datatype Waiter = NotStarted | AwaitOutbox | AwaitHandlers | Cancelling | Finishing | WaiterDone

  datatype Outbox = NoLoop | Selecting | Publishing | Stopping | LoopDone

  datatype Owner = Free | ByDelivery(d: nat) | ByCloser(c: nat)

  /** Channels are represented by how often they have been closed; a second time would panic. */
  datatype Manager = Manager(
    started: bool, owner: Owner, closing: bool, inFlight: int, cancelled: bool,
    outboxStop: nat, outboxDone: nat, closeDone: nat,
    deliveries: map<nat, Delivery>, closers: map<nat, Closer>, waiter: Waiter, outbox: Outbox)

  function Initial(started: bool): Manager {
    Manager(started, Free, false, 0, false, 0, 0, 0, map[], map[], NotStarted, if started then Selecting else NoLoop)
  }

  datatype Action =
    | Deliver(d: nat) | StepDelivery(d: nat)
    | CallClose(c: nat) | StepCloser(c: nat) | Expire(c: nat)
    | StepWaiter
    | Tick | StepOutbox

  // ----- Steps; a step that is not enabled changes nothing -----

  function TrackStep(m: Manager, d: nat): (r: Manager)
    requires d in m.deliveries
    ensures r == m.(owner := r.owner, inFlight := r.inFlight, deliveries := r.deliveries)
  {
    match m.deliveries[d]
    case Arrived =>
      if m.owner == Free then m.(owner := ByDelivery(d), deliveries := m.deliveries[d := Holding]) else m
    case Holding =>
      if m.closing then m.(owner := Free, deliveries := m.deliveries[d := Rejected])
      else m.(inFlight := m.inFlight + 1, deliveries := m.deliveries[d := Added])
    case Added => m.(owner := Free, deliveries := m.deliveries[d := Handling])
    case Handling => m.(inFlight := m.inFlight - 1, deliveries := m.deliveries[d := Handled])
    case Handled | Rejected => m
  }

  function CloseStep(m: Manager, c: nat): (r: Manager)
    requires c in m.closers
    ensures r == m.(owner := r.owner, closing := r.closing, outboxStop := r.outboxStop, waiter := r.waiter,
                    closers := r.closers)
  {
    match m.closers[c]
    case Called =>
      if m.owner == Free then m.(owner := ByCloser(c), closers := m.closers[c := Entered]) else m
    case Entered =>
      if m.closing then m.(closers := m.closers[c := Leaving])
      else m.(closing := true, closers := m.closers[c := Marked])
    case Marked =>
      m.(outboxStop := if m.started then m.outboxStop + 1 else m.outboxStop, closers := m.closers[c := Stopped])
    case Stopped => m.(waiter := AwaitOutbox, closers := m.closers[c := Leaving])
    case Leaving => m.(owner := Free, closers := m.closers[c := Waiting])
    case Waiting => if m.closeDone > 0 then m.(closers := m.closers[c := Returned]) else m
    case Returned | TimedOut => m
  }

  function WaiterStep(m: Manager): (r: Manager)
    ensures r == m.(waiter := r.waiter, cancelled := r.cancelled, closeDone := r.closeDone)
    ensures m.closeDone <= r.closeDone
  {
    match m.waiter
    case NotStarted | WaiterDone => m
    case AwaitOutbox => if !m.started || m.outboxDone > 0 then m.(waiter := AwaitHandlers) else m
    case AwaitHandlers => if m.inFlight == 0 then m.(waiter := Cancelling) else m
    case Cancelling => m.(cancelled := true, waiter := Finishing)
    case Finishing => m.(closeDone := m.closeDone + 1, waiter := WaiterDone)
  }

  function OutboxStep(m: Manager): (r: Manager)
    ensures r == m.(outbox := r.outbox, outboxDone := r.outboxDone)
  {
    match m.outbox
    case Selecting => if m.outboxStop > 0 then m.(outbox := Stopping) else m
    case Publishing => m.(outbox := Selecting)
    case Stopping => m.(outboxDone := m.outboxDone + 1, outbox := LoopDone)
    case NoLoop | LoopDone => m
  }

  function Step(m: Manager, a: Action): Manager {
    match a
    case Deliver(d) => if d in m.deliveries then m else m.(deliveries := m.deliveries[d := Arrived])
    case StepDelivery(d) => if d in m.deliveries then TrackStep(m, d) else m
    case CallClose(c) => if c in m.closers then m else m.(closers := m.closers[c := Called])
    case StepCloser(c) => if c in m.closers then CloseStep(m, c) else m
    case Expire(c) =>
      if c in m.closers && m.closers[c] == Waiting
      then m.(cancelled := true, closers := m.closers[c := TimedOut]) else m
    case StepWaiter => WaiterStep(m)
    case Tick => if m.outbox == Selecting then m.(outbox := Publishing) else m
    case StepOutbox => OutboxStep(m)
  }

  datatype History = Begin(started: bool) | Then(earlier: History, action: Action)

  function After(h: History): Manager {
    match h
    case Begin(started) => Initial(started)
    case Then(earlier, a) => Step(After(earlier), a)
  }

  // ----- Invariant -----

  predicate InFlight(p: Delivery) {
    p == Added || p == Handling
  }

  predicate OwningDelivery(p: Delivery) {
    p == Holding || p == Added
  }

  predicate OwningCloser(p: Closer) {
    p == Entered || p == Marked || p == Stopped || p == Leaving
  }

  function Handlers(deliveries: map<nat, Delivery>): set<nat> {
    set d | d in deliveries && InFlight(deliveries[d])
  }

  /** The mutex is held by exactly the thread inside its critical section. */
  ghost predicate Exclusive(m: Manager) {
    && (forall d :: d in m.deliveries ==> (OwningDelivery(m.deliveries[d]) <==> m.owner == ByDelivery(d)))
    && (forall c :: c in m.closers ==> (OwningCloser(m.closers[c]) <==> m.owner == ByCloser(c)))
    && (m.owner.ByDelivery? ==> m.owner.d in m.deliveries)
    && (m.owner.ByCloser? ==> m.owner.c in m.closers)
  }

  /** The first closer is between marking the manager closed and starting the waiter. */
  predicate Opening(owner: Owner, closers: map<nat, Closer>) {
    owner.ByCloser? && owner.c in closers && (closers[owner.c] == Marked || closers[owner.c] == Stopped)
  }

  predicate StopPending(owner: Owner, closers: map<nat, Closer>) {
    owner.ByCloser? && owner.c in closers && closers[owner.c] == Marked
  }

  ghost predicate Phases(m: Manager) {
    && (m.waiter != NotStarted <==> m.closing && !Opening(m.owner, m.closers))
    && (Opening(m.owner, m.closers) ==> m.closing)
    && (forall d :: d in m.deliveries && m.deliveries[d] == Added ==> !m.closing)
    && m.outboxStop == (if m.started && m.closing && !StopPending(m.owner, m.closers) then 1 else 0)
  }

  ghost predicate Counters(m: Manager) {
    && m.inFlight == |Handlers(m.deliveries)|
    && m.outboxDone == (if m.outbox == LoopDone then 1 else 0)
    && m.closeDone == (if m.waiter == WaiterDone then 1 else 0)
    && (m.outbox == NoLoop <==> !m.started)
    && (m.outbox == Stopping || m.outbox == LoopDone ==> m.outboxStop == 1)
  }

  predicate PastOutbox(m: Manager) {
    m.waiter == AwaitHandlers || PastHandlers(m)
  }

  predicate PastHandlers(m: Manager) {
    m.waiter == Cancelling || m.waiter == Finishing || m.waiter == WaiterDone
  }

  ghost predicate Awaited(m: Manager) {
    && (PastOutbox(m) ==> m.outbox == NoLoop || m.outbox == LoopDone)
    && (PastHandlers(m) ==> m.inFlight == 0)
    && (m.closeDone > 0 ==> m.cancelled)
    && (m.waiter == Finishing ==> m.cancelled)
  }

  ghost predicate Invariant(m: Manager) {
    Exclusive(m) && Phases(m) && Counters(m) && Awaited(m)
  }

  lemma HandlersSame(deliveries: map<nat, Delivery>, d: nat, p: Delivery)
    requires if d in deliveries then InFlight(deliveries[d]) == InFlight(p) else !InFlight(p)
    ensures Handlers(deliveries[d := p]) == Handlers(deliveries)
  {
  }

  lemma HandlerStarts(deliveries: map<nat, Delivery>, d: nat)
    requires d in deliveries && !InFlight(deliveries[d])
    ensures |Handlers(deliveries[d := Added])| == |Handlers(deliveries)| + 1
  {
    assert Handlers(deliveries[d := Added]) == Handlers(deliveries) + {d};
  }

  lemma HandlerEnds(deliveries: map<nat, Delivery>, d: nat)
    requires d in deliveries && InFlight(deliveries[d])
    ensures |Handlers(deliveries[d := Handled])| == |Handlers(deliveries)| - 1
    ensures |Handlers(deliveries)| > 0
  {
    assert d in Handlers(deliveries);
    assert Handlers(deliveries[d := Handled]) == Handlers(deliveries) - {d};
  }

  lemma TrackExclusive(m: Manager, d: nat)
    requires Exclusive(m) && d in m.deliveries
    ensures Exclusive(TrackStep(m, d))
  {
  }

  lemma TrackPhases(m: Manager, d: nat)
    requires Invariant(m) && d in m.deliveries
    ensures Phases(TrackStep(m, d))
  {
    var r := TrackStep(m, d);
    assert m.owner == ByDelivery(d) || m.owner == Free || r.owner == m.owner;
    assert Opening(r.owner, r.closers) == Opening(m.owner, m.closers);
    assert StopPending(r.owner, r.closers) == StopPending(m.owner, m.closers);
  }

  lemma TrackHandlers(m: Manager, d: nat)
    requires Exclusive(m) && m.inFlight == |Handlers(m.deliveries)| && d in m.deliveries
    requires PastHandlers(m) ==> m.inFlight == 0 && m.closing
    ensures TrackStep(m, d).inFlight == |Handlers(TrackStep(m, d).deliveries)|
    ensures PastHandlers(m) ==> TrackStep(m, d).inFlight == 0
  {
    match m.deliveries[d]
    case Holding =>
      if m.closing {
        HandlersSame(m.deliveries, d, Rejected);
      } else {
        HandlerStarts(m.deliveries, d);
      }
    case Handling =>
      HandlerEnds(m.deliveries, d);
    case Arrived =>
      HandlersSame(m.deliveries, d, Holding);
    case Added =>
      HandlersSame(m.deliveries, d, Handling);
    case _ =>
  }

  lemma TrackKeeps(m: Manager, d: nat)
    requires Invariant(m) && d in m.deliveries
    ensures Invariant(TrackStep(m, d))
  {
    TrackExclusive(m, d);
    TrackPhases(m, d);
    TrackHandlers(m, d);
  }

  lemma CloseExclusive(m: Manager, c: nat)
    requires Exclusive(m) && c in m.closers
    ensures Exclusive(CloseStep(m, c))
  {
  }

  lemma ClosePhases(m: Manager, c: nat)
    requires Exclusive(m) && Phases(m) && c in m.closers
    ensures Phases(CloseStep(m, c))
  {
    var r := CloseStep(m, c);
    assert OwningCloser(m.closers[c]) ==> m.owner == ByCloser(c);
    if m.closers[c] == Called || m.closers[c] == Waiting || m.closers[c] == Leaving {
      assert Opening(r.owner, r.closers) == Opening(m.owner, m.closers);
      assert StopPending(r.owner, r.closers) == StopPending(m.owner, m.closers);
    }
  }

  lemma CloseCounters(m: Manager, c: nat)
    requires Invariant(m) && c in m.closers
    ensures Counters(CloseStep(m, c)) && Awaited(CloseStep(m, c))
  {
    assert OwningCloser(m.closers[c]) ==> m.owner == ByCloser(c);
  }

  lemma CloseKeeps(m: Manager, c: nat)
    requires Invariant(m) && c in m.closers
    ensures Invariant(CloseStep(m, c))
  {
    CloseExclusive(m, c);
    ClosePhases(m, c);
    CloseCounters(m, c);
  }

  lemma BackgroundKeeps(m: Manager)
    requires Invariant(m)
    ensures Invariant(WaiterStep(m)) && Invariant(OutboxStep(m))
  {
  }

  lemma ArrivalKeeps(m: Manager, d: nat)
    requires Invariant(m) && d !in m.deliveries
    ensures Invariant(m.(deliveries := m.deliveries[d := Arrived]))
  {
    var r := m.(deliveries := m.deliveries[d := Arrived]);
    HandlersSame(m.deliveries, d, Arrived);
    assert Opening(r.owner, r.closers) == Opening(m.owner, m.closers);
    assert StopPending(r.owner, r.closers) == StopPending(m.owner, m.closers);
  }

  lemma CallerKeeps(m: Manager, c: nat, p: Closer, cancelled: bool)
    requires Invariant(m) && (c in m.closers ==> m.closers[c] == Waiting)
    requires !OwningCloser(p) && (m.cancelled ==> cancelled)
    ensures Invariant(m.(cancelled := cancelled, closers := m.closers[c := p]))
  {
    var r := m.(cancelled := cancelled, closers := m.closers[c := p]);
    assert Handlers(r.deliveries) == Handlers(m.deliveries);
    assert Opening(r.owner, r.closers) == Opening(m.owner, m.closers);
    assert StopPending(r.owner, r.closers) == StopPending(m.owner, m.closers);
  }

  lemma StepKeeps(m: Manager, a: Action)
    requires Invariant(m)
    ensures Invariant(Step(m, a))
  {
    match a
    case StepDelivery(d) =>
      if d in m.deliveries {
        TrackKeeps(m, d);
      }
    case StepCloser(c) =>
      if c in m.closers {
        CloseKeeps(m, c);
      }
    case Deliver(d) =>
      if d !in m.deliveries {
        ArrivalKeeps(m, d);
      }
    case CallClose(c) =>
      if c !in m.closers {
        CallerKeeps(m, c, Called, m.cancelled);
        assert m.(cancelled := m.cancelled, closers := m.closers[c := Called]) == Step(m, a);
      }
    case Expire(c) =>
      if c in m.closers && m.closers[c] == Waiting {
        CallerKeeps(m, c, TimedOut, true);
      }
    case Tick => TickKeeps(m);
    case StepWaiter => BackgroundKeeps(m);
    case StepOutbox => BackgroundKeeps(m);
  }

  lemma TickKeeps(m: Manager)
    requires Invariant(m)
    ensures Invariant(Step(m, Tick))
  {
  }

  lemma {:induction false} EveryHistoryKeeps(h: History)
    ensures Invariant(After(h))
  {
    match h
    case Begin(started) =>
      assert Handlers(map[]) == {};
    case Then(earlier, a) =>
      EveryHistoryKeeps(earlier);
      StepKeeps(After(earlier), a);
  }

  // ----- Main results -----

  ghost predicate Quiet(m: Manager) {
    && (forall d :: d in m.deliveries ==> !InFlight(m.deliveries[d]))
    && (m.started ==> m.outbox == LoopDone)
    && m.closing && m.cancelled
  }

  lemma NoHandlers(m: Manager)
    requires Invariant(m) && m.inFlight == 0
    ensures forall d :: d in m.deliveries ==> !InFlight(m.deliveries[d])
  {
    forall d | d in m.deliveries
      ensures !InFlight(m.deliveries[d])
    {
      assert Handlers(m.deliveries) == {};
      assert d !in Handlers(m.deliveries);
    }
  }

  /** Once closeDone is closed no handler is running and the outbox loop has ended. */
  lemma ClosedMeansQuiet(h: History)
    requires After(h).closeDone > 0
    ensures Quiet(After(h))
  {
    EveryHistoryKeeps(h);
    NoHandlers(After(h));
  }

  /** One history continues another. */
  ghost predicate Continues(later: History, h: History) {
    later == h || (later.Then? && Continues(later.earlier, h))
  }

  lemma CloseDoneGrows(m: Manager, a: Action)
    ensures Step(m, a).closeDone >= m.closeDone
  {
  }

  lemma {:induction false} ClosedStaysClosed(h: History, later: History)
    requires Continues(later, h) && After(h).closeDone > 0
    ensures After(later).closeDone > 0
  {
    if later != h {
      ClosedStaysClosed(h, later.earlier);
      CloseDoneGrows(After(later.earlier), later.action);
    }
  }

  /** ... and no handler ever starts again, whatever is delivered. */
  lemma ClosedStaysQuiet(h: History, later: History)
    requires Continues(later, h) && After(h).closeDone > 0
    ensures Quiet(After(later))
  {
    ClosedStaysClosed(h, later);
    ClosedMeansQuiet(later);
  }

  /** No channel is ever closed twice, and when Close reports success each of them has been closed once
      (the outbox ones only if the outbox was started). */
  lemma ChannelsCloseOnce(h: History)
    ensures var m := After(h);
            && m.outboxStop <= 1 && m.outboxDone <= 1 && m.closeDone <= 1
            && (m.closeDone == 1 ==>
                m.outboxStop == m.outboxDone == if m.started then 1 else 0)
  {
    EveryHistoryKeeps(h);
  }

  /** inFlight counts the handlers, so Done never makes it negative; and once the waiter has been started
      it is only counted down, as WaitGroup requires of Add and Wait. */
  lemma WaitGroupIsUsedRightly(h: History, a: Action)
    ensures After(h).inFlight == |Handlers(After(h).deliveries)| && After(h).inFlight >= 0
    ensures After(h).waiter != NotStarted ==> After(Then(h, a)).inFlight <= After(h).inFlight
  {
    EveryHistoryKeeps(h);
  }

  lemma ReturnsWhenClosed(m: Manager, a: Action, c: nat)
    requires c in Step(m, a).closers && Step(m, a).closers[c] == Returned
    ensures (c in m.closers && m.closers[c] == Returned) || m.closeDone > 0
  {
  }

  /** A Close that returned without timing out did so after everything had stopped. */
  lemma {:induction false} ReturnedMeansClosed(h: History, c: nat)
    requires c in After(h).closers && After(h).closers[c] == Returned
    ensures After(h).closeDone > 0 && Quiet(After(h))
  {
    if h.Then? {
      ReturnsWhenClosed(After(h.earlier), h.action, c);
      if After(h.earlier).closeDone == 0 {
        ReturnedMeansClosed(h.earlier, c);
      }
      CloseDoneGrows(After(h.earlier), h.action);
      ClosedMeansQuiet(h);
    }
  }
}
