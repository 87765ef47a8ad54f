/** The append-only event log of chat runs (runrepo.go AppendEvent and ListEvents).  An append locks a
    hash of the run, reads the largest committed sequence, inserts the next one and commits; appenders
    of any runs and readers interleave freely, and an append may give up at any point. */
module RunEvents {
  import opened Options

  type RunId = nat
  type Payload = string
  type Rows = map<nat, Payload>

  datatype Appender =
    | Waiting(run: RunId, payload: Payload)
    | Locked(run: RunId, payload: Payload)
    | Inserted(run: RunId, payload: Payload, sequence: nat)

  /** A client that polls with the last sequence it has seen. */
  datatype Reader = Reader(run: RunId, from: nat, last: nat, received: seq<Payload>)

  datatype Log = Log(committed: map<RunId, Rows>, locks: map<int, nat>, appenders: map<nat, Appender>,
                     readers: map<nat, Reader>)

  datatype Action =
    | Begin(appender: nat, run: RunId, payload: Payload)
    | Acquire(appender: nat)
    | Insert(appender: nat, top: nat)
    | Commit(appender: nat)
    | Abort(appender: nat)
    | Subscribe(reader: nat, run: RunId, from: nat)
    | Poll(reader: nat, limit: int, page: seq<(nat, Payload)>)

  const EMPTY := Log(map[], map[], map[], map[])

  function RowsOf(log: Log, run: RunId): Rows {
    if run in log.committed then log.committed[run] else map[]
  }

  /** COALESCE(MAX(sequence), 0) over the committed rows. */
  ghost predicate IsTop(rows: Rows, top: nat) {
    && (forall k :: k in rows ==> k <= top)
    && (top in rows || (top == 0 && rows == map[]))
  }

  function EffectiveLimit(limit: int): nat {
    if limit < 1 || limit > 500 then 200 else limit
  }

  /** The answer of the query: the rows after `after`, in ascending order, cut off at the limit. */
  ghost predicate IsPage(rows: Rows, after: nat, limit: nat, page: seq<(nat, Payload)>) {
    && |page| <= limit
    && (forall i :: 0 <= i < |page| ==> page[i].0 in rows && rows[page[i].0] == page[i].1 && after < page[i].0)
    && (forall i, j :: 0 <= i < j < |page| ==> page[i].0 < page[j].0)
    && (forall k :: k in rows && after < k ==>
          (exists i :: 0 <= i < |page| && page[i].0 == k) || (|page| == limit && 0 < limit && page[limit - 1].0 < k))
  }

  predicate HoldsLock(hash: RunId -> int, log: Log, a: nat) {
    a in log.appenders && hash(log.appenders[a].run) in log.locks && log.locks[hash(log.appenders[a].run)] == a
  }

  ghost predicate Enabled(hash: RunId -> int, log: Log, action: Action) {
    match action
    case Begin(a, _, _) => a !in log.appenders
    case Acquire(a) => a in log.appenders && log.appenders[a].Waiting? && hash(log.appenders[a].run) !in log.locks
    case Insert(a, top) =>
      a in log.appenders && log.appenders[a].Locked? && IsTop(RowsOf(log, log.appenders[a].run), top)
    case Commit(a) => a in log.appenders && log.appenders[a].Inserted?
    case Abort(a) => a in log.appenders
    case Subscribe(r, _, _) => r !in log.readers
    case Poll(r, limit, page) =>
      r in log.readers && IsPage(RowsOf(log, log.readers[r].run), log.readers[r].last, EffectiveLimit(limit), page)
  }

  function Payloads(page: seq<(nat, Payload)>): (p: seq<Payload>)
    ensures |p| == |page| && forall i :: 0 <= i < |p| ==> p[i] == page[i].1
  {
    seq(|page|, i requires 0 <= i < |page| => page[i].1)
  }

  /** The transaction ends: its lock goes with it. */
  function Leave(hash: RunId -> int, log: Log, a: nat): Log
    requires a in log.appenders
  {
    var key := hash(log.appenders[a].run);
    log.(appenders := log.appenders - {a},
         locks := if key in log.locks && log.locks[key] == a then log.locks - {key} else log.locks)
  }

  ghost function Perform(hash: RunId -> int, log: Log, action: Action): Log
    requires Enabled(hash, log, action)
  {
    match action
    case Begin(a, run, payload) => log.(appenders := log.appenders[a := Waiting(run, payload)])
    case Acquire(a) =>
      var w := log.appenders[a];
      log.(appenders := log.appenders[a := Locked(w.run, w.payload)], locks := log.locks[hash(w.run) := a])
    case Insert(a, top) =>
      var w := log.appenders[a];
      log.(appenders := log.appenders[a := Inserted(w.run, w.payload, top + 1)])
    case Commit(a) =>
      var w := log.appenders[a];
      var rows := RowsOf(log, w.run);
      Leave(hash, log.(committed := log.committed[w.run := rows[w.sequence := w.payload]]), a)
    case Abort(a) => Leave(hash, log, a)
    case Subscribe(r, run, from) => log.(readers := log.readers[r := Reader(run, from, from, [])])
    case Poll(r, limit, page) =>
      var reader := log.readers[r];
      log.(readers := log.readers[r := reader.(received := reader.received + Payloads(page),
                                               last := if page == [] then reader.last else page[|page| - 1].0)])
  }

  /** A run of the log: every action is enabled when it happens. */
  ghost predicate Runs(hash: RunId -> int, log: Log, actions: seq<Action>, final: Log)
    decreases |actions|
  {
    if actions == [] then final == log
    else Enabled(hash, log, actions[0]) && Runs(hash, Perform(hash, log, actions[0]), actions[1..], final)
  }

  // ----- Invariant -----

  /** The committed sequences are exactly 1, 2, ..., n. */
  ghost predicate GapFree(rows: Rows) {
    forall k :: k in rows <==> 1 <= k <= |rows|
  }

  /** The events with sequences from + 1 to last. */
  ghost function Slice(rows: Rows, from: nat, last: nat): (s: seq<Payload>)
    requires GapFree(rows) && from <= last <= |rows|
    ensures |s| == last - from && forall i :: 0 <= i < |s| ==> s[i] == rows[from + 1 + i]
  {
    seq(last - from, i requires 0 <= i < last - from => rows[from + 1 + i])
  }

  /** A reader has received every event after its starting point exactly once, in order.  A reader may
      start past the end of the log. */
  ghost predicate CaughtUp(rows: Rows, reader: Reader) {
    && GapFree(rows) && reader.from <= reader.last
    && (reader.received == [] ==> reader.last == reader.from)
    && (reader.received != [] ==> reader.last <= |rows| && reader.received == Slice(rows, reader.from, reader.last))
  }

  ghost predicate AppenderOk(hash: RunId -> int, log: Log, a: nat)
    requires a in log.appenders
  {
    var w := log.appenders[a];
    && (!w.Waiting? ==> HoldsLock(hash, log, a))
    && (w.Inserted? ==> w.sequence == |RowsOf(log, w.run)| + 1)
  }

  ghost predicate ReaderOk(log: Log, r: nat)
    requires r in log.readers
  {
    CaughtUp(RowsOf(log, log.readers[r].run), log.readers[r])
  }

  ghost predicate Invariant(hash: RunId -> int, log: Log) {
    && (forall run {:trigger GapFree(RowsOf(log, run))} :: GapFree(RowsOf(log, run)))
    && (forall a {:trigger AppenderOk(hash, log, a)} :: a in log.appenders ==> AppenderOk(hash, log, a))
    && (forall r {:trigger ReaderOk(log, r)} :: r in log.readers ==> ReaderOk(log, r))
  }

  lemma TopOfGapFree(rows: Rows, top: nat)
    requires GapFree(rows) && IsTop(rows, top)
    ensures top == |rows|
  {
    if rows != map[] {
      assert |rows| in rows;
    }
  }

  lemma CommitExtends(rows: Rows, payload: Payload)
    requires GapFree(rows)
    ensures GapFree(rows[|rows| + 1 := payload]) && |rows[|rows| + 1 := payload]| == |rows| + 1
  {
    assert |rows| + 1 !in rows;
  }

  /** On a gap-free log a page is the next contiguous stretch, empty only at the end. */
  lemma PageIsNextStretch(rows: Rows, after: nat, limit: nat, page: seq<(nat, Payload)>)
    requires GapFree(rows) && 1 <= limit && IsPage(rows, after, limit, page)
    ensures forall i :: 0 <= i < |page| ==> page[i].0 == after + 1 + i
    ensures |page| == if after >= |rows| then 0 else if |rows| - after < limit then |rows| - after else limit
  {
    PageStartsRight(rows, after, limit, page, |page|);
    var next := after + |page| + 1;
    assert next in rows <==> next <= |rows|;
    if |page| > 0 {
      assert page[|page| - 1].0 in rows;
    }
  }

  /** The query always has an answer: a poll can be made at any time. */
  lemma PageExists(rows: Rows, after: nat, limit: nat) returns (page: seq<(nat, Payload)>)
    requires GapFree(rows) && 1 <= limit
    ensures IsPage(rows, after, limit, page)
  {
    var n := if after >= |rows| then 0 else if |rows| - after < limit then |rows| - after else limit;
    page := seq(n, i requires 0 <= i < n => (after + 1 + i, rows[after + 1 + i]));
    forall k | k in rows && after < k
      ensures (exists i :: 0 <= i < |page| && page[i].0 == k) || (|page| == limit && page[limit - 1].0 < k)
    {
      if k <= after + n {
        assert page[k - after - 1].0 == k;
      }
    }
  }

  lemma AscendsFrom(page: seq<(nat, Payload)>, n: nat, m: nat, low: nat)
    requires forall i, j :: 0 <= i < j < |page| ==> page[i].0 < page[j].0
    requires n <= m < |page| && low < page[n].0
    ensures low < page[m].0
  {
  }

  /** A row in reach is not skipped: the page holds it before any later one. */
  lemma NoneSkipped(rows: Rows, after: nat, limit: nat, page: seq<(nat, Payload)>, n: nat, row: nat)
    requires IsPage(rows, after, limit, page) && n < |page| && after < row && row in rows
    requires forall i :: 0 <= i < n ==> page[i].0 < row
    ensures page[n].0 <= row
  {
    if row < page[n].0 {
      AscendsFrom(page, n, |page| - 1, row);
      forall i | n <= i < |page|
        ensures row < page[i].0
      {
        AscendsFrom(page, n, i, row);
      }
    }
  }

  ghost predicate StartsRight(page: seq<(nat, Payload)>, after: nat, n: nat) {
    n <= |page| && forall i :: 0 <= i < n ==> page[i].0 == after + 1 + i
  }

  lemma NextOnPage(rows: Rows, after: nat, limit: nat, page: seq<(nat, Payload)>, n: nat)
    requires GapFree(rows) && IsPage(rows, after, limit, page) && n < |page| && StartsRight(page, after, n)
    ensures StartsRight(page, after, n + 1)
  {
    var row := after + 1 + n;
    assert n > 0 ==> page[n - 1].0 == row - 1;
    assert page[n].0 in rows && row <= page[n].0;
    NoneSkipped(rows, after, limit, page, n, row);
  }

  lemma {:induction false} PageStartsRight(rows: Rows, after: nat, limit: nat, page: seq<(nat, Payload)>, n: nat)
    requires GapFree(rows) && IsPage(rows, after, limit, page) && n <= |page|
    ensures StartsRight(page, after, n)
  {
    if n > 0 {
      PageStartsRight(rows, after, limit, page, n - 1);
      NextOnPage(rows, after, limit, page, n - 1);
    }
  }

  /** Appenders keep what holds of them when the rows they see stay and their lock stays theirs. */
  lemma AppenderFrame(hash: RunId -> int, log: Log, log': Log, a: nat)
    requires a in log.appenders && AppenderOk(hash, log, a)
    requires a in log'.appenders && log'.appenders[a] == log.appenders[a]
    requires HoldsLock(hash, log, a) ==> HoldsLock(hash, log', a)
    requires HoldsLock(hash, log, a) ==> RowsOf(log', log.appenders[a].run) == RowsOf(log, log.appenders[a].run)
    ensures AppenderOk(hash, log', a)
  {
  }

  lemma SameRowsKeep(hash: RunId -> int, log: Log, log': Log)
    requires Invariant(hash, log) && log'.committed == log.committed
    requires forall r :: r in log'.readers ==> ReaderOk(log', r)
    requires forall a :: a in log'.appenders ==> AppenderOk(hash, log', a)
    ensures Invariant(hash, log')
  {
    forall run
      ensures GapFree(RowsOf(log', run))
    {
      assert GapFree(RowsOf(log, run));
      assert RowsOf(log', run) == RowsOf(log, run);
    }
  }

  lemma ReadersSame(hash: RunId -> int, log: Log, log': Log)
    requires Invariant(hash, log) && log'.committed == log.committed && log'.readers == log.readers
    ensures forall r :: r in log'.readers ==> ReaderOk(log', r)
  {
    forall r | r in log'.readers
      ensures ReaderOk(log', r)
    {
      assert ReaderOk(log, r);
      assert RowsOf(log', log.readers[r].run) == RowsOf(log, log.readers[r].run);
    }
  }

  lemma AppendersSame(hash: RunId -> int, log: Log, log': Log)
    requires Invariant(hash, log)
    requires log' == log.(readers := log'.readers)
    ensures forall a :: a in log'.appenders ==> AppenderOk(hash, log', a)
  {
    forall a | a in log'.appenders
      ensures AppenderOk(hash, log', a)
    {
      assert AppenderOk(hash, log, a);
      AppenderFrame(hash, log, log', a);
    }
  }

  lemma BeginKeeps(hash: RunId -> int, log: Log, action: Action)
    requires Invariant(hash, log) && Enabled(hash, log, action) && (action.Begin? || action.Acquire?)
    ensures Invariant(hash, Perform(hash, log, action))
  {
    var log' := Perform(hash, log, action);
    ReadersSame(hash, log, log');
    forall a | a in log'.appenders
      ensures AppenderOk(hash, log', a)
    {
      if a in log.appenders {
        assert AppenderOk(hash, log, a);
        if log'.appenders[a] == log.appenders[a] {
          AppenderFrame(hash, log, log', a);
        }
      }
    }
    SameRowsKeep(hash, log, log');
  }

  lemma SubscribeKeeps(hash: RunId -> int, log: Log, r: nat, run: RunId, from: nat)
    requires Invariant(hash, log) && Enabled(hash, log, Subscribe(r, run, from))
    ensures Invariant(hash, Perform(hash, log, Subscribe(r, run, from)))
  {
    var log' := Perform(hash, log, Subscribe(r, run, from));
    AppendersSame(hash, log, log');
    forall q | q in log'.readers
      ensures ReaderOk(log', q)
    {
      assert q != r ==> ReaderOk(log, q);
      assert GapFree(RowsOf(log, run)) && RowsOf(log', log'.readers[q].run) == RowsOf(log, log'.readers[q].run);
    }
    SameRowsKeep(hash, log, log');
  }

  lemma InsertKeeps(hash: RunId -> int, log: Log, a: nat, top: nat)
    requires Invariant(hash, log) && Enabled(hash, log, Insert(a, top))
    ensures Invariant(hash, Perform(hash, log, Insert(a, top)))
  {
    var log' := Perform(hash, log, Insert(a, top));
    assert GapFree(RowsOf(log, log.appenders[a].run));
    TopOfGapFree(RowsOf(log, log.appenders[a].run), top);
    ReadersSame(hash, log, log');
    forall b | b in log'.appenders
      ensures AppenderOk(hash, log', b)
    {
      assert AppenderOk(hash, log, b);
      if b != a {
        AppenderFrame(hash, log, log', b);
      }
    }
    SameRowsKeep(hash, log, log');
  }

  lemma AbortKeeps(hash: RunId -> int, log: Log, a: nat)
    requires Invariant(hash, log) && a in log.appenders
    ensures Invariant(hash, Leave(hash, log, a))
  {
    var log' := Leave(hash, log, a);
    ReadersSame(hash, log, log');
    forall b | b in log'.appenders
      ensures AppenderOk(hash, log', b)
    {
      assert AppenderOk(hash, log, b);
      AppenderFrame(hash, log, log', b);
    }
    SameRowsKeep(hash, log, log');
  }

  lemma ReaderKeepsUp(rows: Rows, rows': Rows, reader: Reader)
    requires CaughtUp(rows, reader) && GapFree(rows') && |rows| <= |rows'|
    requires forall k :: k in rows ==> k in rows' && rows'[k] == rows[k]
    ensures CaughtUp(rows', reader)
  {
    if reader.received != [] {
      assert Slice(rows', reader.from, reader.last) == Slice(rows, reader.from, reader.last);
    }
  }

  /** Readers when the rows of one run have grown. */
  lemma ReadersGrow(hash: RunId -> int, log: Log, log': Log, run: RunId)
    requires Invariant(hash, log) && log'.readers == log.readers && GapFree(RowsOf(log', run))
    requires |RowsOf(log, run)| <= |RowsOf(log', run)|
    requires forall k :: k in RowsOf(log, run) ==> k in RowsOf(log', run) && RowsOf(log', run)[k] == RowsOf(log, run)[k]
    requires forall other :: other != run ==> RowsOf(log', other) == RowsOf(log, other)
    ensures forall r :: r in log'.readers ==> ReaderOk(log', r)
  {
    forall r | r in log'.readers
      ensures ReaderOk(log', r)
    {
      assert ReaderOk(log, r);
      if log.readers[r].run == run {
        ReaderKeepsUp(RowsOf(log, run), RowsOf(log', run), log.readers[r]);
      }
    }
  }

  lemma OthersWait(hash: RunId -> int, log: Log, a: nat)
    requires Invariant(hash, log) && Enabled(hash, log, Commit(a))
    ensures var log' := Perform(hash, log, Commit(a)); forall b :: b in log'.appenders ==> AppenderOk(hash, log', b)
  {
    var log' := Perform(hash, log, Commit(a));
    assert AppenderOk(hash, log, a);
    forall b | b in log'.appenders
      ensures AppenderOk(hash, log', b)
    {
      assert AppenderOk(hash, log, b);
      AppenderFrame(hash, log, log', b);
    }
  }

  /** The run has this payload as its next event, and every other run is as it was. */
  ghost predicate Appended(log: Log, log': Log, run: RunId, payload: Payload) {
    && RowsOf(log', run) == RowsOf(log, run)[|RowsOf(log, run)| + 1 := payload]
    && (forall other :: other != run ==> RowsOf(log', other) == RowsOf(log, other))
  }

  ghost predicate Stored(log: Log, log': Log, run: RunId, sequence: nat, payload: Payload) {
    && RowsOf(log', run) == RowsOf(log, run)[sequence := payload]
    && (forall other :: other != run ==> RowsOf(log', other) == RowsOf(log, other))
  }

  lemma CommitStores(hash: RunId -> int, log: Log, a: nat)
    requires a in log.appenders && log.appenders[a].Inserted?
    ensures var w := log.appenders[a]; Stored(log, Perform(hash, log, Commit(a)), w.run, w.sequence, w.payload)
  {
  }

  lemma NextSequence(hash: RunId -> int, log: Log, a: nat)
    requires a in log.appenders && AppenderOk(hash, log, a) && log.appenders[a].Inserted?
    ensures log.appenders[a].sequence == |RowsOf(log, log.appenders[a].run)| + 1
  {
  }

  lemma CommitAppends(hash: RunId -> int, log: Log, a: nat)
    requires Invariant(hash, log) && Enabled(hash, log, Commit(a))
    ensures Appended(log, Perform(hash, log, Commit(a)), log.appenders[a].run, log.appenders[a].payload)
  {
    assert AppenderOk(hash, log, a);
    NextSequence(hash, log, a);
    CommitStores(hash, log, a);
  }

  lemma AppendedIsGapFree(log: Log, log': Log, run: RunId, payload: Payload, any: RunId)
    requires Appended(log, log', run, payload) && GapFree(RowsOf(log, any))
    ensures GapFree(RowsOf(log', any)) && |RowsOf(log, any)| <= |RowsOf(log', any)|
    ensures forall k :: k in RowsOf(log, any) ==> k in RowsOf(log', any) && RowsOf(log', any)[k] == RowsOf(log, any)[k]
  {
    if any == run {
      CommitExtends(RowsOf(log, run), payload);
    }
  }

  lemma CommitKeeps(hash: RunId -> int, log: Log, a: nat)
    requires Invariant(hash, log) && Enabled(hash, log, Commit(a))
    ensures Invariant(hash, Perform(hash, log, Commit(a)))
  {
    var log' := Perform(hash, log, Commit(a));
    var w := log.appenders[a];
    CommitAppends(hash, log, a);
    forall run
      ensures GapFree(RowsOf(log', run))
    {
      assert GapFree(RowsOf(log, run));
      AppendedIsGapFree(log, log', w.run, w.payload, run);
    }
    OthersWait(hash, log, a);
    assert GapFree(RowsOf(log, w.run));
    AppendedIsGapFree(log, log', w.run, w.payload, w.run);
    ReadersGrow(hash, log, log', w.run);
  }

  lemma ReaderPolls(hash: RunId -> int, log: Log, r: nat, limit: int, page: seq<(nat, Payload)>)
    requires Invariant(hash, log) && Enabled(hash, log, Poll(r, limit, page))
    ensures var log' := Perform(hash, log, Poll(r, limit, page));
            CaughtUp(RowsOf(log, log.readers[r].run), log'.readers[r])
  {
    var reader := log.readers[r];
    var rows := RowsOf(log, reader.run);
    assert GapFree(rows) && ReaderOk(log, r);
    PageIsNextStretch(rows, reader.last, EffectiveLimit(limit), page);
    ReceivedGrows(rows, reader, page);
  }

  lemma OtherReadersStay(log: Log, log': Log, q: nat)
    requires log'.committed == log.committed && q in log.readers && q in log'.readers
    requires ReaderOk(log, q) && log'.readers[q] == log.readers[q]
    ensures ReaderOk(log', q)
  {
  }

  lemma PollKeeps(hash: RunId -> int, log: Log, r: nat, limit: int, page: seq<(nat, Payload)>)
    requires Invariant(hash, log) && Enabled(hash, log, Poll(r, limit, page))
    ensures Invariant(hash, Perform(hash, log, Poll(r, limit, page)))
  {
    var log' := Perform(hash, log, Poll(r, limit, page));
    ReaderPolls(hash, log, r, limit, page);
    AppendersSame(hash, log, log');
    forall q | q in log'.readers
      ensures ReaderOk(log', q)
    {
      assert ReaderOk(log, q);
      if q != r {
        OtherReadersStay(log, log', q);
      }
    }
    SameRowsKeep(hash, log, log');
  }

  lemma ReceivedGrows(rows: Rows, reader: Reader, page: seq<(nat, Payload)>)
    requires CaughtUp(rows, reader)
    requires forall i :: 0 <= i < |page| ==>
               page[i].0 == reader.last + 1 + i && page[i].0 in rows && rows[page[i].0] == page[i].1
    ensures CaughtUp(rows, reader.(received := reader.received + Payloads(page),
                                   last := if page == [] then reader.last else page[|page| - 1].0))
  {
    if page != [] {
      var last := page[|page| - 1].0;
      assert last in rows;
      assert reader.received + Payloads(page) == Slice(rows, reader.from, last);
    } else {
      assert reader.received + Payloads(page) == reader.received;
    }
  }

  lemma EveryActionKeeps(hash: RunId -> int, log: Log, action: Action)
    requires Invariant(hash, log) && Enabled(hash, log, action)
    ensures Invariant(hash, Perform(hash, log, action))
  {
    match action
    case Insert(a, top) => InsertKeeps(hash, log, a, top);
    case Commit(a) => CommitKeeps(hash, log, a);
    case Abort(a) => AbortKeeps(hash, log, a);
    case Poll(r, limit, page) => PollKeeps(hash, log, r, limit, page);
    case Subscribe(r, run, from) => SubscribeKeeps(hash, log, r, run, from);
    case _ => BeginKeeps(hash, log, action);
  }

  lemma {:induction false} RunKeeps(hash: RunId -> int, log: Log, actions: seq<Action>, final: Log)
    requires Invariant(hash, log) && Runs(hash, log, actions, final)
    ensures Invariant(hash, final)
    decreases |actions|
  {
    if actions != [] {
      EveryActionKeeps(hash, log, actions[0]);
      RunKeeps(hash, Perform(hash, log, actions[0]), actions[1..], final);
    }
  }

  lemma {:induction false} LastStep(hash: RunId -> int, log: Log, actions: seq<Action>, final: Log)
    returns (before: Log)
    requires actions != [] && Runs(hash, log, actions, final)
    ensures Runs(hash, log, actions[..|actions| - 1], before)
    ensures var last := actions[|actions| - 1]; Enabled(hash, before, last) && final == Perform(hash, before, last)
    decreases |actions|
  {
    if |actions| == 1 {
      before := log;
    } else {
      before := LastStep(hash, Perform(hash, log, actions[0]), actions[1..], final);
      assert actions[..|actions| - 1][1..] == actions[1..][..|actions| - 2];
    }
  }

  lemma {:induction false} RunsOn(hash: RunId -> int, log: Log, actions: seq<Action>, middle: Log, last: Action)
    requires Runs(hash, log, actions, middle) && Enabled(hash, middle, last)
    ensures Runs(hash, log, actions + [last], Perform(hash, middle, last))
    decreases |actions|
  {
    if actions == [] {
      assert ([] + [last])[1..] == [];
    } else {
      RunsOn(hash, Perform(hash, log, actions[0]), actions[1..], middle, last);
      assert (actions + [last])[1..] == actions[1..] + [last];
    }
  }

  // ----- What was asked of the log -----

  /** The run and the payload of the append that an appender began last. */
  function BegunBy(actions: seq<Action>, a: nat): Option<(RunId, Payload)> {
    if actions == [] then None
    else
      var last := actions[|actions| - 1];
      if last.Begin? && last.appender == a then Some((last.run, last.payload))
      else BegunBy(actions[..|actions| - 1], a)
  }

  /** The run and the starting point of a reader. */
  function SubscribedBy(actions: seq<Action>, r: nat): Option<(RunId, nat)> {
    if actions == [] then None
    else
      var last := actions[|actions| - 1];
      if last.Subscribe? && last.reader == r then Some((last.run, last.from))
      else SubscribedBy(actions[..|actions| - 1], r)
  }

  /** What an action, after these ones, commits to a run. */
  function CommittedBy(earlier: seq<Action>, last: Action, run: RunId): seq<Payload> {
    var begun := if last.Commit? then BegunBy(earlier, last.appender) else None;
    if begun.Some? && begun.value.0 == run then [begun.value.1] else []
  }

  /** The payloads of the appends to a run that were committed, in the order of the commits. */
  function CommittedTo(actions: seq<Action>, run: RunId): seq<Payload> {
    if actions == [] then []
    else
      var earlier, last := actions[..|actions| - 1], actions[|actions| - 1];
      CommittedTo(earlier, run) + CommittedBy(earlier, last, run)
  }

  /** Appenders and readers do what they were asked to. */
  ghost predicate Remembers(log: Log, actions: seq<Action>) {
    && (forall a :: a in log.appenders ==>
          BegunBy(actions, a) == Some((log.appenders[a].run, log.appenders[a].payload)))
    && (forall r :: r in log.readers ==> SubscribedBy(actions, r) == Some((log.readers[r].run, log.readers[r].from)))
  }

  lemma {:induction false} RunRemembers(hash: RunId -> int, actions: seq<Action>, final: Log)
    requires Runs(hash, EMPTY, actions, final)
    ensures Remembers(final, actions)
    decreases |actions|
  {
    if actions != [] {
      var before := LastStep(hash, EMPTY, actions, final);
      RunRemembers(hash, actions[..|actions| - 1], before);
    }
  }

  /** The rows 1, 2, ..., n hold these payloads. */
  ghost predicate Holds(rows: Rows, payloads: seq<Payload>) {
    GapFree(rows) && |rows| == |payloads| && forall i :: 0 <= i < |payloads| ==> rows[i + 1] == payloads[i]
  }

  lemma OthersAppendNothing(hash: RunId -> int, log: Log, action: Action)
    requires Enabled(hash, log, action) && !action.Commit?
    ensures Perform(hash, log, action).committed == log.committed
  {
  }

  lemma OneMoreHeld(rows: Rows, payloads: seq<Payload>, payload: Payload)
    requires Holds(rows, payloads)
    ensures Holds(rows[|rows| + 1 := payload], payloads + [payload])
  {
    CommitExtends(rows, payload);
  }

  // ----- Main results -----

  /** Each commit, in every reachable log, adds the payload its appender began with as the next event of the
      run it began with, and leaves every other run; any other action leaves every run. */
  lemma EveryCommitAppends(hash: RunId -> int, actions: seq<Action>, log: Log, action: Action)
    requires Runs(hash, EMPTY, actions, log) && Enabled(hash, log, action)
    ensures action.Commit? ==>
              var begun := BegunBy(actions, action.appender);
              begun.Some? && Appended(log, Perform(hash, log, action), begun.value.0, begun.value.1)
    ensures !action.Commit? ==> Perform(hash, log, action).committed == log.committed
  {
    if action.Commit? {
      RunKeeps(hash, EMPTY, actions, log);
      RunRemembers(hash, actions, log);
      CommitAppends(hash, log, action.appender);
    } else {
      OthersAppendNothing(hash, log, action);
    }
  }

  lemma AppendedIsHeld(log: Log, log': Log, run: RunId, payload: Payload, any: RunId, payloads: seq<Payload>)
    requires Appended(log, log', run, payload) && Holds(RowsOf(log, any), payloads)
    ensures Holds(RowsOf(log', any), payloads + if run == any then [payload] else [])
  {
    if run == any {
      OneMoreHeld(RowsOf(log, any), payloads, payload);
    } else {
      assert payloads + [] == payloads;
    }
  }

  /** The log of a run is exactly the payloads of its commits, in the order they were committed. */
  lemma {:induction false} LogIsTheCommits(hash: RunId -> int, actions: seq<Action>, final: Log, run: RunId)
    requires Runs(hash, EMPTY, actions, final)
    ensures Holds(RowsOf(final, run), CommittedTo(actions, run))
    decreases |actions|
  {
    if actions != [] {
      var before := LastStep(hash, EMPTY, actions, final);
      var earlier, last := actions[..|actions| - 1], actions[|actions| - 1];
      LogIsTheCommits(hash, earlier, before, run);
      EveryCommitAppends(hash, earlier, before, last);
      if last.Commit? {
        var begun := BegunBy(earlier, last.appender).value;
        AppendedIsHeld(before, final, begun.0, begun.1, run, CommittedTo(earlier, run));
      } else {
        assert CommittedTo(earlier, run) + [] == CommittedTo(earlier, run);
      }
    }
  }

  /** From end to end: a reader that has received something has received exactly the payloads of the commits
      to the run it asked for, from its starting point to its last sequence. */
  lemma ReadersReceiveTheCommits(hash: RunId -> int, actions: seq<Action>, final: Log, r: nat)
    requires Runs(hash, EMPTY, actions, final) && r in final.readers && final.readers[r].received != []
    ensures var asked, reader := SubscribedBy(actions, r), final.readers[r];
            && asked.Some?
            && var (run, from) := asked.value;
               && from <= reader.last <= |CommittedTo(actions, run)|
               && reader.received == CommittedTo(actions, run)[from..reader.last]
  {
    RunKeeps(hash, EMPTY, actions, final);
    RunRemembers(hash, actions, final);
    assert ReaderOk(final, r);
    var reader := final.readers[r];
    LogIsTheCommits(hash, actions, final, reader.run);
    assert reader.received == Slice(RowsOf(final, reader.run), reader.from, reader.last);
  }

  /** However appenders interleave, collide on locks or give up, the committed sequences of every run
      are exactly 1, 2, ..., n, and an insert never meets a sequence that is already taken. */
  lemma LogIsGapFree(hash: RunId -> int, actions: seq<Action>, final: Log, run: RunId)
    requires Runs(hash, EMPTY, actions, final)
    ensures forall k :: k in RowsOf(final, run) <==> 1 <= k <= |RowsOf(final, run)|
    ensures forall a :: a in final.appenders && final.appenders[a].Inserted? && final.appenders[a].run == run ==>
              final.appenders[a].sequence !in RowsOf(final, run)
  {
    RunKeeps(hash, EMPTY, actions, final);
    assert GapFree(RowsOf(final, run));
    forall a | a in final.appenders && final.appenders[a].Inserted? && final.appenders[a].run == run
      ensures final.appenders[a].sequence !in RowsOf(final, run)
    {
      assert AppenderOk(hash, final, a);
    }
  }

  /** A reader that keeps polling from its last sequence has received every event after its starting
      point, up to that sequence, exactly once and in order, despite concurrent appenders. */
  lemma CatchUpIsLossless(hash: RunId -> int, actions: seq<Action>, final: Log, r: nat)
    requires Runs(hash, EMPTY, actions, final) && r in final.readers
    ensures var reader := final.readers[r];
            var rows := RowsOf(final, reader.run);
            && |reader.received| == reader.last - reader.from
            && forall i :: 0 <= i < |reader.received| ==>
                 reader.from + 1 + i in rows && reader.received[i] == rows[reader.from + 1 + i]
  {
    RunKeeps(hash, EMPTY, actions, final);
    assert ReaderOk(final, r);
  }

  /** A poll of a reader that is behind returns the very next events, at least one of them. */
  lemma PollMakesProgress(hash: RunId -> int, actions: seq<Action>, final: Log, r: nat, limit: int,
                          page: seq<(nat, Payload)>)
    requires Runs(hash, EMPTY, actions, final) && Enabled(hash, final, Poll(r, limit, page))
    ensures var reader := final.readers[r];
            var behind := |RowsOf(final, reader.run)| - reader.last;
            var most := if 1 <= limit <= 500 then limit else 200;
            0 < behind ==>
              && |page| == (if behind < most then behind else most)
              && page[0].0 == reader.last + 1
  {
    RunKeeps(hash, EMPTY, actions, final);
    var reader := final.readers[r];
    assert GapFree(RowsOf(final, reader.run));
    PageIsNextStretch(RowsOf(final, reader.run), reader.last, EffectiveLimit(limit), page);
  }

  // ----- No append is stuck -----

  /** Every lock belongs to a transaction that is past waiting for it. */
  ghost predicate LocksHeld(hash: RunId -> int, log: Log) {
    forall key :: key in log.locks ==>
      var a := log.locks[key];
      a in log.appenders && !log.appenders[a].Waiting? && hash(log.appenders[a].run) == key
  }

  lemma LocksStayHeld(hash: RunId -> int, log: Log, action: Action)
    requires LocksHeld(hash, log) && Enabled(hash, log, action)
    ensures LocksHeld(hash, Perform(hash, log, action))
  {
  }

  lemma {:induction false} LocksAreHeld(hash: RunId -> int, actions: seq<Action>, final: Log)
    requires Runs(hash, EMPTY, actions, final)
    ensures LocksHeld(hash, final)
    decreases |actions|
  {
    if actions != [] {
      var before := LastStep(hash, EMPTY, actions, final);
      LocksAreHeld(hash, actions[..|actions| - 1], before);
      LocksStayHeld(hash, before, actions[|actions| - 1]);
    }
  }

  /** The run goes on and ends with the append of this payload committed, and nothing else. */
  ghost predicate Finishes(hash: RunId -> int, actions: seq<Action>, all: seq<Action>, final: Log, run: RunId,
                           payload: Payload)
  {
    && Runs(hash, EMPTY, all, final) && actions <= all
    && CommittedTo(all, run) == CommittedTo(actions, run) + [payload]
  }

  lemma CommittedAfter(actions: seq<Action>, action: Action, run: RunId)
    ensures CommittedTo(actions + [action], run)
         == CommittedTo(actions, run) + CommittedBy(actions, action, run)
  {
    assert (actions + [action])[..|actions|] == actions;
  }

  lemma OneMoreAction(hash: RunId -> int, actions: seq<Action>, log: Log, action: Action, run: RunId)
    requires Runs(hash, EMPTY, actions, log) && Enabled(hash, log, action)
    ensures Runs(hash, EMPTY, actions + [action], Perform(hash, log, action))
    ensures CommittedTo(actions + [action], run) == CommittedTo(actions, run) + CommittedBy(actions, action, run)
  {
    RunsOn(hash, EMPTY, actions, log, action);
    CommittedAfter(actions, action, run);
  }

  lemma InsertedCanFinish(hash: RunId -> int, actions: seq<Action>, log: Log, a: nat)
    returns (all: seq<Action>, final: Log)
    requires Runs(hash, EMPTY, actions, log) && a in log.appenders && log.appenders[a].Inserted?
    ensures Finishes(hash, actions, all, final, log.appenders[a].run, log.appenders[a].payload)
  {
    RunRemembers(hash, actions, log);
    all, final := actions + [Commit(a)], Perform(hash, log, Commit(a));
    OneMoreAction(hash, actions, log, Commit(a), log.appenders[a].run);
  }

  lemma LockedCanFinish(hash: RunId -> int, actions: seq<Action>, log: Log, a: nat)
    returns (all: seq<Action>, final: Log)
    requires Runs(hash, EMPTY, actions, log) && a in log.appenders && log.appenders[a].Locked?
    ensures Finishes(hash, actions, all, final, log.appenders[a].run, log.appenders[a].payload)
  {
    RunKeeps(hash, EMPTY, actions, log);
    var run := log.appenders[a].run;
    var top := |RowsOf(log, run)|;
    assert GapFree(RowsOf(log, run));
    assert IsTop(RowsOf(log, run), top);
    OneMoreAction(hash, actions, log, Insert(a, top), run);
    all, final := InsertedCanFinish(hash, actions + [Insert(a, top)], Perform(hash, log, Insert(a, top)), a);
  }

  lemma FreeCanFinish(hash: RunId -> int, actions: seq<Action>, log: Log, a: nat)
    returns (all: seq<Action>, final: Log)
    requires Runs(hash, EMPTY, actions, log) && a in log.appenders && log.appenders[a].Waiting?
    requires hash(log.appenders[a].run) !in log.locks
    ensures Finishes(hash, actions, all, final, log.appenders[a].run, log.appenders[a].payload)
  {
    OneMoreAction(hash, actions, log, Acquire(a), log.appenders[a].run);
    all, final := LockedCanFinish(hash, actions + [Acquire(a)], Perform(hash, log, Acquire(a)), a);
  }

  /** No append is ever stuck: whatever has happened, it can go on to be committed as the next event of its
      run.  At most the transaction that holds its lock has to end first. */
  lemma AppendCanFinish(hash: RunId -> int, actions: seq<Action>, log: Log, a: nat)
    returns (all: seq<Action>, final: Log)
    requires Runs(hash, EMPTY, actions, log) && a in log.appenders
    ensures Finishes(hash, actions, all, final, log.appenders[a].run, log.appenders[a].payload)
  {
    var w := log.appenders[a];
    if w.Inserted? {
      all, final := InsertedCanFinish(hash, actions, log, a);
    } else if w.Locked? {
      all, final := LockedCanFinish(hash, actions, log, a);
    } else if hash(w.run) !in log.locks {
      all, final := FreeCanFinish(hash, actions, log, a);
    } else {
      LocksAreHeld(hash, actions, log);
      var key := hash(w.run);
      var b := log.locks[key];
      OneMoreAction(hash, actions, log, Abort(b), w.run);
      all, final := FreeCanFinish(hash, actions + [Abort(b)], Perform(hash, log, Abort(b)), a);
    }
  }
}
