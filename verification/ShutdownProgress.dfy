/** That shutdown comes to an end (worker/manager.go, Close and track): nobody deadlocks on the mutex, the
    wait group or a channel, and deliveries are only turned away by a manager that is closing. */
module ShutdownProgress {
  import opened Shutdown

  /** Steps of threads that are already there: no new delivery, call, timeout or tick. */
  predicate Internal(a: Action) {
    a.StepDelivery? || a.StepCloser? || a.StepWaiter? || a.StepOutbox?
  }

  // ----- Work that is left -----

  function DeliveryWork(p: Delivery): nat {
    match p
    case Arrived => 4
    case Holding => 3
    case Added => 2
    case Handling => 1
    case Handled | Rejected => 0
  }

  function CloserWork(p: Closer): nat {
    match p
    case Called => 6
    case Entered => 5
    case Marked => 4
    case Stopped => 3
    case Leaving => 2
    case Waiting => 1
    case Returned | TimedOut => 0
  }

  function WaiterWork(p: Waiter): nat {
    match p
    case NotStarted => 5
    case AwaitOutbox => 4
    case AwaitHandlers => 3
    case Cancelling => 2
    case Finishing => 1
    case WaiterDone => 0
  }

  function OutboxWork(p: Outbox): nat {
    match p
    case Publishing => 3
    case Selecting => 2
    case Stopping => 1
    case NoLoop | LoopDone => 0
  }

  ghost function Total(work: map<nat, nat>): nat {
    if work == map[] then 0
    else
      var k :| k in work;
      work[k] + Total(work - {k})
  }

  lemma {:induction false} TotalWithout(work: map<nat, nat>, k: nat)
    requires k in work
    ensures Total(work) == work[k] + Total(work - {k})
  {
    var j :| j in work && Total(work) == work[j] + Total(work - {j});
    if j != k {
      TotalWithout(work - {j}, k);
      TotalWithout(work - {k}, j);
      assert work - {j} - {k} == work - {k} - {j};
    }
  }

  lemma TotalWith(work: map<nat, nat>, k: nat, v: nat)
    requires k in work
    ensures Total(work[k := v]) == Total(work) - work[k] + v
  {
    TotalWithout(work, k);
    TotalWithout(work[k := v], k);
    assert work[k := v] - {k} == work - {k};
  }

  function WorkOfEach<T(!new)>(threads: map<nat, T>, work: T -> nat): map<nat, nat> {
    map k | k in threads :: work(threads[k])
  }

  ghost function DeliveriesWork(deliveries: map<nat, Delivery>): nat {
    Total(WorkOfEach(deliveries, DeliveryWork))
  }

  ghost function ClosersWork(closers: map<nat, Closer>): nat {
    Total(WorkOfEach(closers, CloserWork))
  }

  /** An upper bound on the steps the threads can still take. */
  ghost function Work(m: Manager): nat {
    DeliveriesWork(m.deliveries) + ClosersWork(m.closers) + WaiterWork(m.waiter) + OutboxWork(m.outbox)
  }

  lemma DeliveryMoves(deliveries: map<nat, Delivery>, d: nat, p: Delivery)
    requires d in deliveries
    ensures DeliveriesWork(deliveries[d := p])
         == DeliveriesWork(deliveries) - DeliveryWork(deliveries[d]) + DeliveryWork(p)
  {
    var work := WorkOfEach(deliveries, DeliveryWork);
    assert WorkOfEach(deliveries[d := p], DeliveryWork) == work[d := DeliveryWork(p)];
    TotalWith(work, d, DeliveryWork(p));
  }

  lemma CloserMoves(closers: map<nat, Closer>, c: nat, p: Closer)
    requires c in closers
    ensures ClosersWork(closers[c := p]) == ClosersWork(closers) - CloserWork(closers[c]) + CloserWork(p)
  {
    var work := WorkOfEach(closers, CloserWork);
    assert WorkOfEach(closers[c := p], CloserWork) == work[c := CloserWork(p)];
    TotalWith(work, c, CloserWork(p));
  }

  /** A thread moves, if it does, to where less is left to do. */
  lemma TrackAdvances(m: Manager, d: nat)
    requires d in m.deliveries && TrackStep(m, d) != m
    ensures d in TrackStep(m, d).deliveries
    ensures var p := TrackStep(m, d).deliveries[d];
            TrackStep(m, d).deliveries == m.deliveries[d := p] && DeliveryWork(p) < DeliveryWork(m.deliveries[d])
  {
  }

  lemma TrackWorks(m: Manager, d: nat)
    requires d in m.deliveries && TrackStep(m, d) != m
    ensures Work(TrackStep(m, d)) < Work(m)
  {
    TrackAdvances(m, d);
    DeliveryMoves(m.deliveries, d, TrackStep(m, d).deliveries[d]);
  }

  lemma CloseAdvances(m: Manager, c: nat)
    requires c in m.closers
    ensures c in CloseStep(m, c).closers
    ensures var p := CloseStep(m, c).closers[c];
            && CloseStep(m, c).closers == m.closers[c := p]
            && (CloseStep(m, c) != m ==> CloserWork(p) < CloserWork(m.closers[c]))
            && (p == TimedOut <==> m.closers[c] == TimedOut)
  {
    if CloseStep(m, c) == m {
      assert m.closers == m.closers[c := m.closers[c]];
    }
  }

  lemma StartsWaiterOnce(m: Manager, c: nat)
    requires Exclusive(m) && Phases(m) && c in m.closers
    ensures WaiterWork(CloseStep(m, c).waiter) <= WaiterWork(m.waiter)
  {
    if m.closers[c] == Stopped {
      assert m.owner == ByCloser(c);
    }
  }

  lemma CloseWorks(m: Manager, c: nat)
    requires Invariant(m) && c in m.closers && CloseStep(m, c) != m
    ensures Work(CloseStep(m, c)) < Work(m)
  {
    CloseAdvances(m, c);
    StartsWaiterOnce(m, c);
    CloserMoves(m.closers, c, CloseStep(m, c).closers[c]);
  }

  /** Every step that does anything leaves less to do. */
  lemma InternalStepsWork(m: Manager, a: Action)
    requires Invariant(m) && Internal(a) && Step(m, a) != m
    ensures Work(Step(m, a)) < Work(m)
  {
    match a
    case StepDelivery(d) => TrackWorks(m, d);
    case StepCloser(c) => CloseWorks(m, c);
    case _ =>
  }

  // ----- Nobody is stuck -----

  /** A closer that has got past the mark has closed the manager. */
  ghost predicate Marks(m: Manager) {
    forall c :: c in m.closers && m.closers[c] != Called && m.closers[c] != Entered ==> m.closing
  }

  lemma ClosingStays(m: Manager, a: Action)
    ensures m.closing ==> Step(m, a).closing
  {
  }

  lemma CloseMarks(m: Manager, c: nat)
    requires Marks(m) && c in m.closers
    ensures Marks(CloseStep(m, c))
  {
  }

  lemma StepMarks(m: Manager, a: Action)
    requires Marks(m)
    ensures Marks(Step(m, a))
  {
    if a.StepCloser? && a.c in m.closers {
      CloseMarks(m, a.c);
    }
  }

  lemma {:induction false} EveryHistoryMarks(h: History)
    ensures Marks(After(h))
  {
    if h.Then? {
      EveryHistoryMarks(h.earlier);
      StepMarks(After(h.earlier), h.action);
    }
  }

  predicate Over(p: Closer) {
    p == Returned || p == TimedOut
  }

  lemma OwnerMoves(m: Manager) returns (a: Action)
    requires Exclusive(m) && m.owner != Free
    ensures Internal(a) && Step(m, a) != m
  {
    if m.owner.ByDelivery? {
      var d := m.owner.d;
      a := StepDelivery(d);
      assert OwningDelivery(m.deliveries[d]);
      assert Step(m, a).deliveries[d] != m.deliveries[d];
    } else {
      var c := m.owner.c;
      a := StepCloser(c);
      assert OwningCloser(m.closers[c]);
      assert Step(m, a).closers[c] != m.closers[c];
    }
  }

  lemma OutboxMoves(m: Manager)
    requires Counters(m) && m.started && m.outboxStop == 1 && m.outboxDone == 0
    ensures OutboxStep(m) != m
  {
  }

  lemma HandlerMoves(m: Manager) returns (d: nat)
    requires Exclusive(m) && m.owner == Free && Handlers(m.deliveries) != {}
    ensures d in m.deliveries && TrackStep(m, d) != m
  {
    d :| d in Handlers(m.deliveries);
    assert m.deliveries[d] == Handling;
    assert TrackStep(m, d).deliveries[d] == Handled;
  }

  lemma WaitedForMoves(m: Manager) returns (a: Action)
    requires Invariant(m) && m.owner == Free && m.closing && m.closeDone == 0
    ensures Internal(a) && Step(m, a) != m
  {
    a := StepWaiter;
    if m.waiter == AwaitOutbox && m.started && m.outboxDone == 0 {
      a := StepOutbox;
      OutboxMoves(m);
    } else if m.waiter == AwaitHandlers && m.inFlight != 0 {
      assert Handlers(m.deliveries) != {};
      var d := HandlerMoves(m);
      a := StepDelivery(d);
    }
  }

  /** As long as a call of Close is not over, some thread can move. */
  lemma SomeThreadMoves(h: History, c: nat) returns (a: Action)
    requires c in After(h).closers && !Over(After(h).closers[c])
    ensures Internal(a) && Step(After(h), a) != After(h)
  {
    var m := After(h);
    EveryHistoryKeeps(h);
    EveryHistoryMarks(h);
    if m.owner != Free {
      a := OwnerMoves(m);
    } else if m.closers[c] == Waiting && m.closeDone == 0 {
      a := WaitedForMoves(m);
    } else {
      a := StepCloser(c);
      assert !OwningCloser(m.closers[c]);
      assert Step(m, a).closers[c] != m.closers[c];
    }
  }

  /** One history continues another with steps of the threads alone. */
  ghost predicate Unwinds(later: History, h: History) {
    later == h || (later.Then? && Internal(later.action) && Unwinds(later.earlier, h))
  }

  lemma {:induction false} UnwindsThrough(later: History, middle: History, h: History)
    requires Unwinds(later, middle) && Unwinds(middle, h)
    ensures Unwinds(later, h)
  {
    if later != middle {
      UnwindsThrough(later.earlier, middle, h);
    }
  }

  ghost predicate SameTimeouts(m: Manager, after: Manager) {
    && after.closers.Keys == m.closers.Keys
    && (forall c :: c in m.closers ==> (m.closers[c] == TimedOut <==> after.closers[c] == TimedOut))
  }

  lemma InternalKeepsClosers(m: Manager, a: Action)
    requires Internal(a)
    ensures SameTimeouts(m, Step(m, a))
  {
    if a.StepCloser? && a.c in m.closers {
      CloseAdvances(m, a.c);
    }
  }

  ghost predicate AllReturn(m: Manager, after: Manager) {
    && after.closers.Keys == m.closers.Keys
    && (forall c :: c in m.closers ==> after.closers[c] == if m.closers[c] == TimedOut then TimedOut else Returned)
  }

  /** Close always can return: from any point, the threads alone bring every call that has not timed out to
      its return, however many deliveries and calls there are. */
  lemma {:induction false} EveryCloseCanReturn(h: History) returns (later: History)
    ensures Unwinds(later, h) && AllReturn(After(h), After(later))
    decreases Work(After(h))
  {
    var m := After(h);
    if c :| c in m.closers && !Over(m.closers[c]) {
      var a := SomeThreadMoves(h, c);
      EveryHistoryKeeps(h);
      InternalStepsWork(m, a);
      InternalKeepsClosers(m, a);
      later := EveryCloseCanReturn(Then(h, a));
      UnwindsThrough(later, Then(h, a), h);
    } else {
      later := h;
    }
  }

  lemma RejectedWhenClosing(m: Manager, a: Action, d: nat)
    requires d in Step(m, a).deliveries && Step(m, a).deliveries[d] == Rejected
    ensures m.closing || (d in m.deliveries && m.deliveries[d] == Rejected)
  {
  }

  /** A delivery is turned away only by a manager that is closing. */
  lemma {:induction false} RejectedMeansClosing(h: History, d: nat)
    requires d in After(h).deliveries && After(h).deliveries[d] == Rejected
    ensures After(h).closing
  {
    if h.Then? {
      RejectedWhenClosing(After(h.earlier), h.action, d);
      if !After(h.earlier).closing {
        RejectedMeansClosing(h.earlier, d);
      }
      ClosingStays(After(h.earlier), h.action);
    }
  }

  predicate Decided(p: Delivery) {
    p == Handled || p == Rejected
  }

  lemma DeliveryCanMove(m: Manager, d: nat) returns (a: Action)
    requires Exclusive(m) && d in m.deliveries && !Decided(m.deliveries[d])
    ensures Internal(a) && Step(m, a) != m && d in Step(m, a).deliveries
  {
    if m.deliveries[d] == Arrived && m.owner != Free {
      a := OwnerMoves(m);
      InternalKeepsDelivery(m, a, d);
    } else {
      a := StepDelivery(d);
      assert Step(m, a).deliveries[d] != m.deliveries[d];
    }
  }

  lemma InternalKeepsDelivery(m: Manager, a: Action, d: nat)
    requires Internal(a) && d in m.deliveries
    ensures d in Step(m, a).deliveries
  {
  }

  /** And every delivery is decided in the end: the threads alone bring it to its handler's end, or to its
      rejection when the manager is closing by then. */
  lemma {:induction false} EveryDeliveryIsDecided(h: History, d: nat) returns (later: History)
    requires d in After(h).deliveries
    ensures Unwinds(later, h) && d in After(later).deliveries && Decided(After(later).deliveries[d])
    ensures !After(later).closing ==> After(later).deliveries[d] == Handled
    decreases Work(After(h))
  {
    if Decided(After(h).deliveries[d]) {
      later := h;
      if After(h).deliveries[d] == Rejected {
        RejectedMeansClosing(h, d);
      }
    } else {
      EveryHistoryKeeps(h);
      var a := DeliveryCanMove(After(h), d);
      InternalStepsWork(After(h), a);
      later := EveryDeliveryIsDecided(Then(h, a), d);
      UnwindsThrough(later, Then(h, a), h);
    }
  }
}
