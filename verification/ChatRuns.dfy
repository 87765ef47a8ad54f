/** The life of a chat run (runrepo.go, runlifecycle.go).  Every statement is one guarded UPDATE;
    completing a run takes two of them, and anything may happen in between. */
module ChatRuns {
  import opened Options

  datatype RunStatus = Created | Running | Completed | Failed | Cancelled

  type Owner = (nat, nat)

  datatype Run = Run(owner: Owner, status: RunStatus, result: Option<string>, error: Option<string>,
                     cancelRequested: bool, completedAt: Option<int>)

  predicate Terminal(status: RunStatus) {
    status == Completed || status == Failed || status == Cancelled
  }

  predicate Open(status: RunStatus) {
    status == Created || status == Running
  }

  /** Empty bytes are stored as NULL, and so is an empty message. */
  function Nullable(value: string): Option<string> {
    if value == "" then None else Some(value)
  }

  // ----- Statements -----

  datatype Statement =
    | MarkRunning
    | CompleteFirst(result: string)
    | CompleteSecond
    | Fail(status: RunStatus, message: string)
    | RequestCancel
    | ResetForResume

  function NewRun(owner: Owner): Run {
    Run(owner, Created, None, None, false, None)
  }

  const CANCELED_MESSAGE := "context canceled"

  /** The row a statement leaves, or None when its guard does not match. */
  function Execute(run: Run, caller: Owner, statement: Statement, now: int): Option<Run> {
    if run.owner != caller then None
    else match statement
      case MarkRunning =>
        if Open(run.status) then Some(run.(status := Running, error := None, completedAt := None)) else None
      case CompleteFirst(result) =>
        if run.status == Running && !run.cancelRequested
        then Some(run.(status := Completed, result := Nullable(result), error := None, completedAt := Some(now)))
        else None
      case CompleteSecond =>
        if run.cancelRequested && Open(run.status)
        then Some(run.(status := Cancelled, error := Some(CANCELED_MESSAGE), completedAt := Some(now))) else None
      case Fail(status, message) =>
        if Open(run.status)
        then Some(run.(status := if status == Cancelled then Cancelled else Failed, error := Nullable(message),
                       completedAt := Some(now)))
        else None
      case RequestCancel =>
        if Open(run.status) then Some(run.(cancelRequested := true)) else None
      case ResetForResume =>
        if run.status == Failed || run.status == Cancelled
        then Some(run.(status := Created, result := None, error := None, cancelRequested := false,
                       completedAt := None))
        else None
  }

  // ----- Errors -----

  datatype RunError = ContextCanceled | Other(message: string)

  function Message(error: RunError): string {
    if error == ContextCanceled then CANCELED_MESSAGE else error.message
  }

  /** The context's own error wins over the one that was returned. */
  function EffectiveRunError(contextError: Option<RunError>, error: RunError): RunError {
    if contextError.Some? then contextError.value else error
  }

  /** failRun: the status an attempt that ended with an error is stored with. */
  function FailureStatus(error: RunError): RunStatus {
    if error == ContextCanceled then Cancelled else Failed
  }

  /** What the agent's work of an attempt came to. */
  datatype Work = Produced(result: string) | Broke(error: RunError)

  const NO_ROWS := Other("no rows in result set")

  // ----- The repository -----

  datatype CompleteError = Nil | Canceled | NoRows

  class RunRepo {
    var runs: map<nat, Run>

    constructor ()
      ensures runs == map[]
    {
      runs := map[];
    }

    /** What a statement does to the table. */
    ghost predicate Ran(before: map<nat, Run>, id: nat, caller: Owner, statement: Statement, now: int, ok: bool)
      reads this
    {
      var after := if id in before then Execute(before[id], caller, statement, now) else None;
      ok == after.Some? && runs == if after.Some? then before[id := after.value] else before
    }

    method Create(id: nat, owner: Owner) returns (ok: bool)
      modifies this
      ensures ok == (id !in old(runs)) && runs == if ok then old(runs)[id := NewRun(owner)] else old(runs)
    {
      ok := id !in runs;
      if ok {
        runs := runs[id := Run(owner, Created, None, None, false, None)];
      }
    }

    /** updateStatus: the statement behind MarkRunning and Fail; it never stores a result. */
    method UpdateStatus(id: nat, caller: Owner, status: RunStatus, message: string, terminal: bool, now: int)
      returns (ok: bool)
      modifies this
      ensures ok == (id in old(runs) && old(runs)[id].owner == caller && Open(old(runs)[id].status))
      ensures runs == if ok then old(runs)[id := old(runs)[id].(status := status, error := Nullable(message),
                                 completedAt := if terminal then Some(now) else None)]
                      else old(runs)
    {
      var completedAt: Option<int> := None;
      if terminal {
        completedAt := Some(now);
      }
      ok := id in runs && runs[id].owner == caller && (runs[id].status == Created || runs[id].status == Running);
      if ok {
        runs := runs[id := runs[id].(status := status, error := Nullable(message), completedAt := completedAt)];
      }
    }

    method Start(id: nat, caller: Owner, now: int) returns (ok: bool)
      modifies this
      ensures Ran(old(runs), id, caller, MarkRunning, now, ok)
    {
      ok := UpdateStatus(id, caller, Running, "", false, now);
    }

    method FailRun(id: nat, caller: Owner, status: RunStatus, message: string, now: int) returns (ok: bool)
      modifies this
      ensures Ran(old(runs), id, caller, Fail(status, message), now, ok)
    {
      var next := status;
      if next != Cancelled {
        next := Failed;
      }
      ok := UpdateStatus(id, caller, next, message, true, now);
    }

    method Cancel(id: nat, caller: Owner, now: int) returns (ok: bool)
      modifies this
      ensures Ran(old(runs), id, caller, RequestCancel, now, ok)
    {
      ok := id in runs && runs[id].owner == caller && (runs[id].status == Created || runs[id].status == Running);
      if ok {
        runs := runs[id := runs[id].(cancelRequested := true)];
      }
    }

    method Reset(id: nat, caller: Owner, now: int) returns (ok: bool)
      modifies this
      ensures Ran(old(runs), id, caller, ResetForResume, now, ok)
    {
      ok := id in runs && runs[id].owner == caller && (runs[id].status == Failed || runs[id].status == Cancelled);
      if ok {
        runs := runs[id := runs[id].(status := Created, result := None, error := None, cancelRequested := false,
                                     completedAt := None)];
      }
    }

    method CompleteStatement(id: nat, caller: Owner, result: string, now: int) returns (ok: bool)
      modifies this
      ensures Ran(old(runs), id, caller, CompleteFirst(result), now, ok)
    {
      ok := id in runs && runs[id].owner == caller && runs[id].status == Running && !runs[id].cancelRequested;
      if ok {
        runs := runs[id := runs[id].(status := Completed, result := Nullable(result), error := None,
                                     completedAt := Some(now))];
      }
    }

    method CancelStatement(id: nat, caller: Owner, now: int) returns (ok: bool)
      modifies this
      ensures Ran(old(runs), id, caller, CompleteSecond, now, ok)
    {
      ok := id in runs && runs[id].owner == caller && runs[id].cancelRequested
         && (runs[id].status == Created || runs[id].status == Running);
      if ok {
        runs := runs[id := runs[id].(status := Cancelled, error := Some(CANCELED_MESSAGE), completedAt := Some(now))];
      }
    }

    /** Both statements with nothing in between: the run is completed, or cancelled if that was asked
        for, and in both cases a later Fail finds nothing to change. */
    method Complete(id: nat, caller: Owner, result: string, now: int) returns (error: CompleteError)
      modifies this
      ensures error == Nil <==> id in old(runs) && old(runs)[id].owner == caller
                                && old(runs)[id].status == Running && !old(runs)[id].cancelRequested
      ensures error == Canceled <==> id in old(runs) && old(runs)[id].owner == caller
                                     && Open(old(runs)[id].status) && old(runs)[id].cancelRequested
      ensures error == NoRows ==> runs == old(runs)
      ensures error != NoRows ==> id in runs && runs - {id} == old(runs) - {id}
      ensures error != NoRows ==>
                && runs[id].owner == caller
                && runs[id].status == (if error == Nil then Completed else Cancelled)
                && runs[id].completedAt == Some(now)
                && runs[id].cancelRequested == old(runs)[id].cancelRequested
                && runs[id].result == (if error == Nil then Nullable(result) else old(runs)[id].result)
                && runs[id].error == (if error == Nil then None else Some(CANCELED_MESSAGE))
                && (forall status, message, later :: Execute(runs[id], caller, Fail(status, message), later).None?)
    {
      var completed := CompleteStatement(id, caller, result, now);
      if completed {
        return Nil;
      }
      var cancelled := CancelStatement(id, caller, now);
      if cancelled {
        return Canceled;
      }
      return NoRows;
    }

    /** The end of an attempt: complete the run with what was produced, and fail it when there is nothing
        or the completion is refused.  The run ends terminal in every case: completed, with the result, when
        its result was accepted; cancelled when that was asked for or the context was cancelled, failed
        otherwise, both with their error and without touching the result. */
    method EndAttempt(id: nat, caller: Owner, work: Work, contextError: Option<RunError>, now: int)
      modifies this
      ensures runs.Keys == old(runs).Keys && runs - {id} == old(runs) - {id}
      ensures id in runs && runs[id].owner != caller ==> runs[id] == old(runs)[id]
      ensures id in runs && !Open(old(runs)[id].status) ==> runs[id] == old(runs)[id]
      ensures id in runs && runs[id].owner == caller ==> Terminal(runs[id].status)
      ensures id in runs && runs[id].owner == caller && Open(old(runs)[id].status) ==>
                var was := old(runs)[id];
                runs[id].status ==
                  if work.Broke? then FailureStatus(EffectiveRunError(contextError, work.error))
                  else if was.cancelRequested then Cancelled
                  else if was.status == Running then Completed
                  else FailureStatus(EffectiveRunError(contextError, NO_ROWS))
      ensures id in runs && runs[id].owner == caller && Open(old(runs)[id].status) ==>
                var was, row := old(runs)[id], runs[id];
                && row.completedAt == Some(now) && row.cancelRequested == was.cancelRequested
                && row.result == (if row.status == Completed then Nullable(work.result) else was.result)
                && row.error ==
                     if row.status == Completed then None
                     else if work.Broke? then Nullable(Message(EffectiveRunError(contextError, work.error)))
                     else if was.cancelRequested then Some(CANCELED_MESSAGE)
                     else Nullable(Message(EffectiveRunError(contextError, NO_ROWS)))
    {
      var error: RunError;
      if work.Produced? {
        var refused := Complete(id, caller, work.result, now);
        assert refused != NoRows ==> runs.Keys == (runs - {id}).Keys + {id};
        if refused == Nil {
          return;
        }
        error := if refused == Canceled then ContextCanceled else NO_ROWS;
      } else {
        error := work.error;
      }
      error := EffectiveRunError(contextError, error);
      var failed := FailRun(id, caller, FailureStatus(error), Message(error), now);
    }
  }

  // ----- Histories of one run -----

  /** What was asked of a run since it was created, by anyone, in the order the database did it. */
  datatype History = Born(owner: Owner) | Then(earlier: History, caller: Owner, statement: Statement, now: int)

  function RowOf(h: History): Run {
    match h
    case Born(owner) => NewRun(owner)
    case Then(earlier, caller, statement, now) =>
      var after := Execute(RowOf(earlier), caller, statement, now);
      if after.Some? then after.value else RowOf(earlier)
  }

  predicate Took(h: History) {
    h.Then? && Execute(RowOf(h.earlier), h.caller, h.statement, h.now).Some?
  }

  /** Since creation or the last reset, a cancel request was answered with true. */
  predicate CancelAccepted(h: History) {
    && h.Then? && !(Took(h) && h.statement.ResetForResume?)
    && ((Took(h) && h.statement.RequestCancel?) || CancelAccepted(h.earlier))
  }

  /** Since creation or the last reset, a completion returned nil. */
  predicate CompletionAccepted(h: History) {
    && h.Then? && !(Took(h) && h.statement.ResetForResume?)
    && ((Took(h) && h.statement.CompleteFirst?) || CompletionAccepted(h.earlier))
  }

  /** The bytes of the accepted completion, if there was one. */
  function CompletedWith(h: History): string {
    if h.Born? then ""
    else if Took(h) && h.statement.CompleteFirst? then h.statement.result
    else CompletedWith(h.earlier)
  }

  ghost predicate RowInvariant(h: History) {
    var run := RowOf(h);
    && (run.completedAt.Some? <==> Terminal(run.status))
    && (run.result.Some? ==> run.status == Completed)
    && (run.status == Completed <==> CompletionAccepted(h))
    && (run.cancelRequested <==> CancelAccepted(h))
    && (run.status == Completed ==> !run.cancelRequested && run.result == Nullable(CompletedWith(h)) && run.error.None?)
  }

  lemma {:induction false} RowInvariantHolds(h: History)
    ensures RowInvariant(h)
  {
    if h.Then? {
      RowInvariantHolds(h.earlier);
    }
  }

  /** Cancel against complete: between a run's creation or reset and the next reset, a cancel request
      answered with true and a completion that returns nil never both happen. */
  lemma {:induction false} CancelExcludesComplete(h: History)
    ensures !(CancelAccepted(h) && CompletionAccepted(h))
  {
    RowInvariantHolds(h);
  }

  /** A run is completed exactly when a completion was accepted; it then holds a result exactly when
      the bytes of that completion were not empty; no other run holds a result; and the completion
      time is set exactly on terminal runs. */
  lemma {:induction false} ResultOnlyOnCompleted(h: History)
    ensures RowOf(h).status == Completed <==> CompletionAccepted(h)
    ensures RowOf(h).result.Some? <==> CompletionAccepted(h) && CompletedWith(h) != ""
    ensures RowOf(h).completedAt.Some? <==> Terminal(RowOf(h).status)
  {
    RowInvariantHolds(h);
  }

  /** Which statements take, in any history: only the owner's; starting, failing and cancelling while the run
      is open; completing while it is running and no cancel request stands, cancelling instead when one does;
      and resetting when it failed or was cancelled. */
  lemma {:induction false} StatementsTakeExactly(h: History, caller: Owner, statement: Statement, now: int)
    ensures Took(Then(h, caller, statement, now)) <==>
              && caller == RowOf(h).owner
              && var status := RowOf(h).status;
                 match statement
                 case MarkRunning | Fail(_, _) | RequestCancel => status == Created || status == Running
                 case CompleteFirst(_) => status == Running && !CancelAccepted(h)
                 case CompleteSecond => (status == Created || status == Running) && CancelAccepted(h)
                 case ResetForResume => status == Failed || status == Cancelled
  {
    RowInvariantHolds(h);
  }

  lemma {:induction false} OwnerStays(h: History)
    ensures RowOf(h).owner == RowOf(Birth(h)).owner
  {
    if h.Then? {
      OwnerStays(h.earlier);
    }
  }

  function Birth(h: History): History {
    if h.Born? then h else Birth(h.earlier)
  }

  /** A run that is resumed starts over: its row is that of a new run, whatever happened before. */
  lemma {:induction false} ResumeStartsOver(h: History, caller: Owner, now: int)
    requires Took(Then(h, caller, ResetForResume, now))
    ensures RowOf(Then(h, caller, ResetForResume, now)) == RowOf(Birth(h))
  {
    OwnerStays(h);
    BirthIsNew(h);
  }

  lemma {:induction false} BirthIsNew(h: History)
    ensures Birth(h).Born?
  {
    if h.Then? {
      BirthIsNew(h.earlier);
    }
  }

  /** The history with further statements after it. */
  function Extend(h: History, more: seq<(Owner, Statement, int)>): History
    decreases |more|
  {
    if more == [] then h else Extend(Then(h, more[0].0, more[0].1, more[0].2), more[1..])
  }

  /** Completed is absorbing: whatever is asked of a completed run, its row stays as it is. */
  lemma {:induction false} CompletedIsAbsorbing(h: History, more: seq<(Owner, Statement, int)>)
    requires RowOf(h).status == Completed
    ensures RowOf(Extend(h, more)) == RowOf(h)
    decreases |more|
  {
    if more != [] {
      RowInvariantHolds(h);
      CompletedIsAbsorbing(Then(h, more[0].0, more[0].1, more[0].2), more[1..]);
    }
  }

  /** Once a cancel request has been accepted, the run cannot complete before it is reset. */
  lemma {:induction false} AcceptedCancelSticks(h: History, more: seq<(Owner, Statement, int)>)
    requires CancelAccepted(h)
    requires forall i :: 0 <= i < |more| ==> !more[i].1.ResetForResume?
    ensures RowOf(Extend(h, more)).cancelRequested && RowOf(Extend(h, more)).status != Completed
    decreases |more|
  {
    RowInvariantHolds(h);
    if more != [] {
      AcceptedCancelSticks(Then(h, more[0].0, more[0].1, more[0].2), more[1..]);
    }
  }

  /** Whatever else was asked of the run meanwhile, the last statement of a failed attempt leaves it
      terminal, and an open run is cancelled exactly when the effective error is the cancellation. */
  lemma FailedAttemptsEndTerminal(h: History, caller: Owner, contextError: Option<RunError>, error: RunError, now: int)
    requires RowOf(h).owner == caller
    ensures var effective := EffectiveRunError(contextError, error);
            var run := RowOf(Then(h, caller, Fail(FailureStatus(effective), Message(effective)), now));
            && Terminal(run.status) && run.completedAt.Some?
            && (Open(RowOf(h).status) ==>
                  (run.status == Cancelled <==>
                     contextError == Some(ContextCanceled) || (contextError.None? && error == ContextCanceled)))
  {
    RowInvariantHolds(h);
  }
}
