/** The sliding-window rate limiter (ratelimit/limiter.go): a Lua script that trims, counts and extends
    a sorted set, with a key that expires.  Times are integer milliseconds of a clock that does not go
    back. */
module RateLimit {
  import opened Arithmetic
  import opened Options

  // ----- Policy -----

  datatype Quotas = Quotas(period: int, chat: int, retrieval: int, upload: int)

  datatype Scope = Chat | Retrieval | Upload

  function Policy(config: Quotas, path: string): Option<(Scope, int)> {
    if path == "/api/chat/ask" || path == "/api/chat/stream" || path == "/api/chat/runs/resume"
    then Some((Chat, config.chat))
    else if path == "/api/retrieval/search" then Some((Retrieval, config.retrieval))
    else if path == "/api/documents/upload" then Some((Upload, config.upload))
    else None
  }

  datatype Decision = Decision(allowed: bool, retryAfter: int)

  // ----- One sorted set -----

  /** Scores of the members, smallest first; a set is gone from `expires` on. */
  datatype SortedSet = SortedSet(scores: seq<int>, expires: int)

  /** The set as the script finds it: Redis has dropped it if it has expired. */
  function Loaded(z: Option<SortedSet>, now: int): seq<int> {
    if z.Some? && now < z.value.expires then z.value.scores else []
  }

  /** ZREMRANGEBYSCORE key 0 bound. */
  function RemoveUpTo(scores: seq<int>, bound: int): seq<int> {
    if scores == [] then []
    else (if 0 <= scores[0] <= bound then [] else [scores[0]]) + RemoveUpTo(scores[1..], bound)
  }

  function CeilDiv(a: int, b: int): int
    requires 0 < b
  {
    -((-a) / b)
  }

  /** ZADD of a new member: it goes behind every member with a score not larger. */
  function Insert(scores: seq<int>, score: int): seq<int> {
    if scores == [] || score < scores[0] then [score] + scores else [scores[0]] + Insert(scores[1..], score)
  }

  /** slidingWindowScript: the new set and what the script returns. */
  function Script(z: Option<SortedSet>, now: int, window: int, quota: int): (Option<SortedSet>, Decision) {
    var scores := RemoveUpTo(Loaded(z, now), now - window);
    if |scores| >= quota then
      var retry := if scores == [] then 1 else Max(1, CeilDiv(scores[0] + window - now, 1000));
      // PEXPIRE of a key without members does nothing: the key does not exist.
      (if scores == [] then None else Some(SortedSet(scores, now + window)), Decision(false, retry))
    else
      (Some(SortedSet(Insert(scores, now), now + window)), Decision(true, 0))
  }

  // ----- The limiter -----

  /** A scope and a user. */
  type Key = (Scope, nat)

  type Sets = map<Key, SortedSet>

  datatype Call = Call(user: nat, path: string, time: int)

  function Get(sets: Sets, key: Key): Option<SortedSet> {
    if key in sets then Some(sets[key]) else None
  }

  function Put(sets: Sets, key: Key, z: Option<SortedSet>): Sets {
    if z.Some? then sets[key := z.value] else sets - {key}
  }

  /** What a call does to the sorted sets, and what it is told. */
  function Answer(config: Quotas, sets: Sets, call: Call): (Sets, Decision) {
    var policy := Policy(config, call.path);
    if policy.None? then (sets, Decision(true, 0))
    else
      var (scope, quota) := policy.value;
      var (z, decision) := Script(Get(sets, (scope, call.user)), call.time, config.period * 1000, quota);
      (Put(sets, (scope, call.user), z), Decision(decision.allowed, Max(decision.retryAfter, 1)))
  }

  lemma PutIs(before: Sets, after: Sets, key: Key)
    requires after - {key} == before - {key}
    ensures after == Put(before, key, Get(after, key))
  {
    assert forall k :: k in after && k != key ==> k in after - {key};
    assert forall k :: k in before && k != key ==> k in before - {key};
    assert forall k :: k != key && k in after ==> (after - {key})[k] == (before - {key})[k];
  }

  class Limiter {
    const config: Quotas
    var sets: Sets

    constructor (config: Quotas)
      ensures this.config == config && sets == map[]
    {
      this.config := config;
      sets := map[];
    }

    function SetOf(key: Key): Option<SortedSet>
      reads this
    {
      Get(sets, key)
    }

    /** The script against the live key, step by step. */
    method RunScript(key: Key, now: int, window: int, quota: int) returns (allowed: bool, retry: int)
      modifies this`sets
      ensures SetOf(key) == Script(old(SetOf(key)), now, window, quota).0
      ensures Decision(allowed, retry) == Script(old(SetOf(key)), now, window, quota).1
      ensures sets - {key} == old(sets) - {key}
    {
      if key in sets && sets[key].expires <= now {
        sets := sets - {key};
      }
      var scores: seq<int> := if key in sets then sets[key].scores else [];
      var kept := RemoveUpTo(scores, now - window);
      if |kept| >= quota {
        retry := 1;
        if kept != [] {
          retry := Max(1, CeilDiv(kept[0] + window - now, 1000));
          sets := sets[key := SortedSet(kept, now + window)];
        } else {
          sets := sets - {key};
        }
        return false, retry;
      }
      sets := sets[key := SortedSet(Insert(kept, now), now + window)];
      return true, 0;
    }

    method Allow(user: nat, path: string, now: int) returns (d: Decision)
      modifies this`sets
      ensures (sets, d) == Answer(config, old(sets), Call(user, path, now))
    {
      var policy := Policy(config, path);
      if policy.None? {
        return Decision(true, 0);
      }
      var (scope, quota) := policy.value;
      var allowed, retry := RunScript((scope, user), now, config.period * 1000, quota);
      PutIs(old(sets), sets, (scope, user));
      return Decision(allowed, Max(retry, 1));
    }
  }

  // ----- Histories of one key -----

  /** The calls made on one key, in the order Redis ran them. */
  datatype History = Start | Then(earlier: History, time: int)

  /** The clock does not go back. */
  ghost predicate Ordered(h: History) {
    h.Then? ==> 0 <= h.time && (h.earlier.Then? ==> h.earlier.time <= h.time) && Ordered(h.earlier)
  }

  /** The set left behind by the calls. */
  function After(h: History, window: int, quota: int): Option<SortedSet> {
    match h
    case Start => None
    case Then(earlier, t) => Script(After(earlier, window, quota), t, window, quota).0
  }

  /** What a call at `now` is told. */
  function Verdict(h: History, window: int, quota: int, now: int): Decision {
    Script(After(h, window, quota), now, window, quota).1
  }

  /** The times of the admitted calls, oldest first, with nothing ever trimmed and no key expiring. */
  function Admitted(h: History, window: int, quota: int): seq<int> {
    match h
    case Start => []
    case Then(earlier, t) =>
      Admitted(earlier, window, quota) + (if Verdict(earlier, window, quota, t).allowed then [t] else [])
  }

  /** The times in the half-open interval (low, high]. */
  function Within(times: seq<int>, low: int, high: int): seq<int> {
    if times == [] then []
    else (if low < times[0] <= high then [times[0]] else []) + Within(times[1..], low, high)
  }

  ghost predicate AllUpTo(times: seq<int>, high: int) {
    forall k :: 0 <= k < |times| ==> 0 <= times[k] <= high
  }

  lemma {:induction false} RemoveIsWithin(scores: seq<int>, bound: int, high: int)
    requires AllUpTo(scores, high)
    ensures RemoveUpTo(scores, bound) == Within(scores, bound, high)
  {
    if scores != [] {
      RemoveIsWithin(scores[1..], bound, high);
    }
  }

  lemma {:induction false} WithinAppend(times: seq<int>, t: int, low: int, high: int)
    ensures Within(times + [t], low, high) == Within(times, low, high) + (if low < t <= high then [t] else [])
  {
    if times == [] {
      assert times + [t] == [t] && [t][1..] == [];
    } else {
      var longer := times + [t];
      assert longer[0] == times[0] && longer[1..] == times[1..] + [t];
      WithinAppend(times[1..], t, low, high);
      var first := if low < times[0] <= high then [times[0]] else [];
      assert Within(longer, low, high) == first + Within(times[1..] + [t], low, high);
    }
  }

  /** Narrowing the interval from below can be done in two steps. */
  lemma {:induction false} WithinNarrows(times: seq<int>, low: int, high: int, low': int, high': int)
    requires AllUpTo(times, high) && low <= low'
    ensures Within(Within(times, low, high), low', high') == Within(times, low', high')
  {
    if times != [] {
      WithinNarrows(times[1..], low, high, low', high');
      var tail := Within(times[1..], low, high);
      if low < times[0] {
        assert Within(times, low, high) == [times[0]] + tail;
        assert ([times[0]] + tail)[1..] == tail;
      } else {
        assert Within(times, low, high) == tail;
      }
    }
  }

  lemma {:induction false} WithinSelects(times: seq<int>, low: int, high: int)
    ensures |Within(times, low, high)| <= |times|
    ensures forall x :: x in Within(times, low, high) <==> x in times && low < x <= high
  {
    if times != [] {
      WithinSelects(times[1..], low, high);
      assert times == [times[0]] + times[1..];
    }
  }

  lemma {:induction false} InsertNewest(scores: seq<int>, score: int)
    requires AllUpTo(scores, score)
    ensures Insert(scores, score) == scores + [score]
  {
    if scores != [] {
      InsertNewest(scores[1..], score);
    }
  }

  lemma {:induction false} AdmittedUpTo(h: History, now: int, window: int, quota: int)
    requires Ordered(Then(h, now))
    ensures AllUpTo(Admitted(h, window, quota), now)
  {
    if h.Then? {
      AdmittedUpTo(h.earlier, h.time, window, quota);
    }
  }

  /** Redis keeps no empty sorted set. */
  function Stored(scores: seq<int>, expires: int): Option<SortedSet> {
    if scores == [] then None else Some(SortedSet(scores, expires))
  }

  /** What the script leaves stored when it runs at `t` and finds the calls of the window. */
  lemma StoredIsWindow(z: Option<SortedSet>, before: seq<int>, t: int, window: int, quota: int)
    requires AllUpTo(before, t) && 0 < window
    requires RemoveUpTo(Loaded(z, t), t - window) == Within(before, t - window, t)
    ensures var (z', d) := Script(z, t, window, quota);
            var stored := Within(before + (if d.allowed then [t] else []), t - window, t);
            z' == Stored(stored, t + window)
  {
    var kept := Within(before, t - window, t);
    if |kept| < quota {
      AdmittedIsStored(before, t, window);
    } else {
      assert before + [] == before;
    }
  }

  /** An admitted call goes to the end of the set. */
  lemma AdmittedIsStored(before: seq<int>, t: int, window: int)
    requires AllUpTo(before, t) && 0 < window
    ensures Insert(Within(before, t - window, t), t) == Within(before + [t], t - window, t) != []
  {
    SelectedAreUpTo(before, t - window, t);
    InsertNewest(Within(before, t - window, t), t);
    WithinAppend(before, t, t - window, t);
  }

  lemma SelectedAreUpTo(times: seq<int>, low: int, high: int)
    requires AllUpTo(times, high)
    ensures AllUpTo(Within(times, low, high), high)
  {
    WithinSelects(times, low, high);
    var selected := Within(times, low, high);
    forall k | 0 <= k < |selected|
      ensures 0 <= selected[k] <= high
    {
      assert selected[k] in selected;
    }
  }

  /** What a later call counts of it, while the key lives. */
  lemma StoredCounts(stored: seq<int>, admitted: seq<int>, t: int, window: int, now: int)
    requires AllUpTo(admitted, t) && t <= now && 0 < window
    requires stored == Within(admitted, t - window, t)
    ensures RemoveUpTo(stored, now - window) == Within(admitted, now - window, now)
  {
    SelectedAreUpTo(admitted, t - window, t);
    WithinNarrows(admitted, t - window, t, now - window, now);
    RemoveIsWithin(stored, now - window, now);
  }

  /** What a later call finds of it. */
  lemma StoredLoads(stored: seq<int>, admitted: seq<int>, t: int, window: int, now: int)
    requires AllUpTo(admitted, t) && t <= now && 0 < window
    requires stored == Within(admitted, t - window, t)
    ensures RemoveUpTo(Loaded(Stored(stored, t + window), now), now - window) == Within(admitted, now - window, now)
  {
    StoredCounts(stored, admitted, t, window, now);
    LoadedUntilExpiry(stored, t + window, now);
    if t + window <= now {
      WithinOfOld(admitted, now - window, now);
      assert Loaded(Stored(stored, t + window), now) == [];
    } else {
      assert Loaded(Stored(stored, t + window), now) == stored;
    }
  }

  lemma LoadedUntilExpiry(stored: seq<int>, expires: int, now: int)
    ensures Loaded(Stored(stored, expires), now)
         == if expires <= now then [] else stored
  {
  }

  lemma {:induction false} WithinOfOld(times: seq<int>, low: int, high: int)
    requires AllUpTo(times, low)
    ensures Within(times, low, high) == []
  {
    if times != [] {
      WithinOfOld(times[1..], low, high);
    }
  }

  /** The admitted calls a call at `now` has to count. */
  function Counted(h: History, window: int, quota: int, now: int): seq<int> {
    Within(Admitted(h, window, quota), now - window, now)
  }

  /** Refinement: however the set was trimmed and whenever the key expired, what the script counts at
      `now` is exactly the list of admitted calls of the last `window` milliseconds. */
  lemma {:induction false} ScriptCountsWindow(h: History, window: int, quota: int, now: int)
    requires Ordered(Then(h, now)) && 0 < window
    ensures RemoveUpTo(Loaded(After(h, window, quota), now), now - window) == Counted(h, window, quota, now)
  {
    if h.Then? {
      var t := h.time;
      ScriptCountsWindow(h.earlier, window, quota, t);
      AdmittedUpTo(h.earlier, t, window, quota);
      StoredIsWindow(After(h.earlier, window, quota), Admitted(h.earlier, window, quota), t, window, quota);
      AdmittedUpTo(h, now, window, quota);
      LatestUpTo(h, window, quota);
      StoredLoads(Counted(h, window, quota, t), Admitted(h, window, quota), t, window, now);
    }
  }

  lemma LatestUpTo(h: History, window: int, quota: int)
    requires Ordered(h) && h.Then?
    ensures AllUpTo(Admitted(h, window, quota), h.time)
  {
    AdmittedUpTo(h, h.time, window, quota);
  }

  // ----- Main results -----

  lemma VerdictOnCounted(h: History, window: int, quota: int, now: int)
    requires Ordered(Then(h, now)) && 0 < window
    ensures var counted := Counted(h, window, quota, now);
            Verdict(h, window, quota, now)
            == if |counted| < quota then Decision(true, 0)
               else Decision(false, if counted == [] then 1 else Max(1, CeilDiv(counted[0] + window - now, 1000)))
  {
    ScriptCountsWindow(h, window, quota, now);
  }

  /** A call is admitted exactly when fewer than `quota` calls were admitted in the window before it. */
  lemma AdmittedIffBelowQuota(h: History, window: int, quota: int, now: int)
    requires Ordered(Then(h, now)) && 0 < window
    ensures Verdict(h, window, quota, now).allowed <==> |Counted(h, window, quota, now)| < quota
  {
    VerdictOnCounted(h, window, quota, now);
  }

  lemma OneMoreFits(admitted: seq<int>, t: int, window: int, low: int, quota: int)
    requires AllUpTo(admitted, t) && |Within(admitted, t - window, t)| < quota && low < t <= low + window
    ensures |Within(admitted + [t], low, low + window)| <= quota
  {
    WithinAppend(admitted, t, low, low + window);
    WithinNarrows(admitted, t - window, t, low, low + window);
    WithinSelects(Within(admitted, t - window, t), low, low + window);
  }

  lemma CallFits(admitted: seq<int>, t: int, window: int, low: int, quota: int, allowed: bool)
    requires AllUpTo(admitted, t) && |Within(admitted, low, low + window)| <= quota
    requires allowed ==> |Within(admitted, t - window, t)| < quota
    ensures |Within(admitted + (if allowed then [t] else []), low, low + window)| <= quota
  {
    if low < t <= low + window && allowed {
      OneMoreFits(admitted, t, window, low, quota);
    } else {
      WithinAppend(admitted, t, low, low + window);
      assert admitted + [] == admitted;
    }
  }

  /** Every half-open interval of the window's length holds at most `quota` admitted calls.  Times are
      integers, so [a, a + window) is covered as (a - 1, a - 1 + window]. */
  lemma {:induction false} QuotaHolds(h: History, window: int, quota: int, low: int)
    requires Ordered(h) && 0 < window && 0 <= quota
    ensures |Within(Admitted(h, window, quota), low, low + window)| <= quota
  {
    if h.Then? {
      var t := h.time;
      QuotaHolds(h.earlier, window, quota, low);
      AdmittedIffBelowQuota(h.earlier, window, quota, t);
      AdmittedUpTo(h.earlier, t, window, quota);
      CallFits(Admitted(h.earlier, window, quota), t, window, low, quota, Verdict(h.earlier, window, quota, t).allowed);
    }
  }

  /** What a call at `now` finds loaded, after trimming, is the window of the admitted calls. */
  lemma LoadedHoldsWindow(h: History, window: int, quota: int, now: int, loaded: seq<int>, admitted: seq<int>)
    requires Ordered(Then(h, now)) && 0 < window
    requires loaded == Loaded(After(h, window, quota), now) && admitted == Admitted(h, window, quota)
    ensures RemoveUpTo(loaded, now - window) == Within(admitted, now - window, now) && AllUpTo(admitted, now)
  {
    ScriptCountsWindow(h, window, quota, now);
    AdmittedUpTo(h, now, window, quota);
  }

  ghost predicate Holds(loaded: seq<int>, admitted: seq<int>, low: int) {
    forall t :: t in admitted && low < t ==> t in loaded
  }

  /** Every admitted call still in the window of a call at `now` is in the set that call finds. */
  ghost predicate WindowIsStored(h: History, window: int, quota: int, now: int) {
    Holds(Loaded(After(h, window, quota), now), Admitted(h, window, quota), now - window)
  }

  /** A key never expires, and an entry is never trimmed, while an admitted call is in the window. */
  lemma NothingInWindowIsLost(h: History, window: int, quota: int, now: int)
    requires Ordered(Then(h, now)) && 0 < window
    ensures WindowIsStored(h, window, quota, now)
  {
    var stored := After(h, window, quota);
    var loaded, admitted := Loaded(stored, now), Admitted(h, window, quota);
    LoadedHoldsWindow(h, window, quota, now, loaded, admitted);
    CountedIsLoaded(loaded, admitted, now - window, now);
  }

  lemma CountedIsLoaded(loaded: seq<int>, admitted: seq<int>, low: int, high: int)
    requires RemoveUpTo(loaded, low) == Within(admitted, low, high) && AllUpTo(admitted, high)
    ensures Holds(loaded, admitted, low)
  {
    WithinSelects(admitted, low, high);
    RemoveUpToSelects(loaded, low);
    forall t | t in admitted && low < t
      ensures t in loaded
    {
      var i :| 0 <= i < |admitted| && admitted[i] == t;
      assert t in Within(admitted, low, high);
    }
  }

  lemma {:induction false} RemoveUpToSelects(scores: seq<int>, bound: int)
    ensures forall x :: x in RemoveUpTo(scores, bound) ==> x in scores
  {
    if scores != [] {
      RemoveUpToSelects(scores[1..], bound);
    }
  }

  /** Rounding a wait of 1 to 1000 * period milliseconds up to seconds. */
  lemma RoundedUp(wait: int, period: int)
    requires 0 < wait <= 1000 * period
    ensures var r := Max(1, CeilDiv(wait, 1000)); 1 <= r <= period && 1000 * (r - 1) < wait <= 1000 * r
  {
  }

  /** A full window holds exactly `quota` calls, all of them less than a period old. */
  lemma FullWindow(h: History, window: int, quota: int, now: int)
    requires Ordered(Then(h, now)) && 0 < window && 0 < quota
    requires !Verdict(h, window, quota, now).allowed
    ensures var counted := Counted(h, window, quota, now);
            |counted| == quota && now - window < counted[0] <= now
  {
    var admitted, counted := Admitted(h, window, quota), Counted(h, window, quota, now);
    AdmittedIffBelowQuota(h, window, quota, now);
    QuotaHolds(h, window, quota, now - window);
    WithinSelects(admitted, now - window, now);
    assert counted[0] in counted;
  }

  /** A rejected caller is told to wait at least one second and at most the period, and exactly until
      the oldest counted call leaves the window, rounded up to seconds. */
  lemma RetryAfterInRange(h: History, period: int, quota: int, now: int)
    requires Ordered(Then(h, now)) && 0 < period && 0 < quota
    requires !Verdict(h, period * 1000, quota, now).allowed
    ensures var r := Verdict(h, period * 1000, quota, now).retryAfter;
            var counted := Counted(h, period * 1000, quota, now);
            && 1 <= r <= period && |counted| == quota
            && 1000 * (r - 1) < counted[0] + period * 1000 - now <= 1000 * r
  {
    var window := period * 1000;
    VerdictOnCounted(h, window, quota, now);
    FullWindow(h, window, quota, now);
    RoundedUp(Counted(h, window, quota, now)[0] + window - now, period);
  }

  /** The history with more calls after it. */
  function Extend(h: History, more: seq<int>): History
    decreases |more|
  {
    if more == [] then h else Extend(Then(h, more[0]), more[1..])
  }

  /** None of the further calls was admitted. */
  ghost predicate NoneAdmitted(h: History, more: seq<int>, window: int, quota: int)
    decreases |more|
  {
    || more == []
    || (!Verdict(h, window, quota, more[0]).allowed && NoneAdmitted(Then(h, more[0]), more[1..], window, quota))
  }

  lemma {:induction false} RejectedCallsChangeNothing(h: History, more: seq<int>, window: int, quota: int)
    requires NoneAdmitted(h, more, window, quota)
    ensures Admitted(Extend(h, more), window, quota) == Admitted(h, window, quota)
    decreases |more|
  {
    if more != [] {
      RejectedCallsChangeNothing(Then(h, more[0]), more[1..], window, quota);
      assert Admitted(h, window, quota) + [] == Admitted(h, window, quota);
    }
  }

  /** Once its oldest call has left the window, a full window has room. */
  lemma RoomAgain(admitted: seq<int>, window: int, now: int, later: int)
    requires AllUpTo(admitted, now) && now <= later
    requires Within(admitted, now - window, now) != [] && Within(admitted, now - window, now)[0] <= later - window
    ensures |Within(admitted, later - window, later)| < |Within(admitted, now - window, now)|
  {
    var counted := Within(admitted, now - window, now);
    WithinNarrows(admitted, now - window, now, later - window, later);
    WithinSelects(counted[1..], later - window, later);
  }

  lemma WaitMakesRoom(h: History, period: int, quota: int, now: int, later: int)
    requires Ordered(Then(h, now)) && 0 < period && 0 < quota
    requires !Verdict(h, period * 1000, quota, now).allowed
    requires now + 1000 * Verdict(h, period * 1000, quota, now).retryAfter <= later
    ensures |Within(Admitted(h, period * 1000, quota), later - period * 1000, later)| < quota
  {
    var window := period * 1000;
    RetryAfterInRange(h, period, quota, now);
    AdmittedUpTo(h, now, window, quota);
    RoomAgain(Admitted(h, window, quota), window, now, later);
  }

  /** Retry-After is sufficient: a caller who is rejected at `now` and told r seconds, and calls again
      at least r seconds later with no call on the key admitted in between, is admitted. */
  lemma RetryAfterSuffices(h: History, more: seq<int>, period: int, quota: int, now: int, later: int)
    requires Ordered(Then(h, now)) && Ordered(Then(Extend(Then(h, now), more), later)) && 0 < period && 0 < quota
    requires !Verdict(h, period * 1000, quota, now).allowed
    requires NoneAdmitted(Then(h, now), more, period * 1000, quota)
    requires now + 1000 * Verdict(h, period * 1000, quota, now).retryAfter <= later
    ensures Verdict(Extend(Then(h, now), more), period * 1000, quota, later).allowed
  {
    var window := period * 1000;
    RejectedCallsChangeNothing(Then(h, now), more, window, quota);
    assert Admitted(h, window, quota) + [] == Admitted(h, window, quota);
    WaitMakesRoom(h, period, quota, now, later);
    AdmittedIffBelowQuota(Extend(Then(h, now), more), window, quota, later);
  }

  // ----- The whole limiter -----

  /** Which calls count towards which quota. */
  predicate Counts(scope: Scope, path: string) {
    match scope
    case Chat => path in ["/api/chat/ask", "/api/chat/stream", "/api/chat/runs/resume"]
    case Retrieval => path == "/api/retrieval/search"
    case Upload => path == "/api/documents/upload"
  }

  function Quota(config: Quotas, scope: Scope): int {
    match scope
    case Chat => config.chat
    case Retrieval => config.retrieval
    case Upload => config.upload
  }

  lemma PolicyMeans(config: Quotas, path: string, scope: Scope)
    ensures Counts(scope, path) <==> Policy(config, path) == Some((scope, Quota(config, scope)))
    ensures Policy(config, path).Some? ==> Counts(Policy(config, path).value.0, path)
  {
  }

  /** The sorted sets after these calls to a new limiter. */
  function SetsAfter(config: Quotas, calls: seq<Call>): Sets {
    if calls == [] then map[] else Answer(config, SetsAfter(config, calls[..|calls| - 1]), calls[|calls| - 1]).0
  }

  /** What a call is told after these calls to a new limiter. */
  predicate Admits(config: Quotas, calls: seq<Call>, call: Call) {
    Answer(config, SetsAfter(config, calls), call).1.allowed
  }

  predicate IsOn(call: Call, user: nat, scope: Scope) {
    call.user == user && Counts(scope, call.path)
  }

  /** The calls of one user that count towards one quota. */
  function CallsOn(calls: seq<Call>, user: nat, scope: Scope): History {
    if calls == [] then Start
    else
      var earlier, last := CallsOn(calls[..|calls| - 1], user, scope), calls[|calls| - 1];
      if IsOn(last, user, scope) then Then(earlier, last.time) else earlier
  }

  /** When calls of one user were admitted on paths of one scope, by the limiter as a whole. */
  function AdmittedTimes(config: Quotas, calls: seq<Call>, user: nat, scope: Scope): seq<int> {
    if calls == [] then []
    else
      var earlier, last := calls[..|calls| - 1], calls[|calls| - 1];
      var admitted := IsOn(last, user, scope) && Admits(config, earlier, last);
      AdmittedTimes(config, earlier, user, scope) + if admitted then [last.time] else []
  }

  lemma AnswerOnKey(config: Quotas, sets: Sets, call: Call, user: nat, scope: Scope)
    ensures var (sets', d) := Answer(config, sets, call);
            var key := (scope, user);
            if IsOn(call, user, scope) then
              var (z, decision) := Script(Get(sets, key), call.time, config.period * 1000, Quota(config, scope));
              Get(sets', key) == z && d.allowed == decision.allowed
            else Get(sets', key) == Get(sets, key)
  {
    PolicyMeans(config, call.path, scope);
  }

  /** Users and scopes do not interfere: each key holds what its own calls left. */
  lemma {:induction false} KeysAreApart(config: Quotas, calls: seq<Call>, user: nat, scope: Scope)
    ensures Get(SetsAfter(config, calls), (scope, user))
         == After(CallsOn(calls, user, scope), config.period * 1000, Quota(config, scope))
  {
    if calls != [] {
      var earlier, last := calls[..|calls| - 1], calls[|calls| - 1];
      KeysAreApart(config, earlier, user, scope);
      AnswerOnKey(config, SetsAfter(config, earlier), last, user, scope);
    }
  }

  lemma {:induction false} AdmittedTimesOfKey(config: Quotas, calls: seq<Call>, user: nat, scope: Scope)
    ensures AdmittedTimes(config, calls, user, scope)
         == Admitted(CallsOn(calls, user, scope), config.period * 1000, Quota(config, scope))
  {
    if calls != [] {
      var earlier, last := calls[..|calls| - 1], calls[|calls| - 1];
      AdmittedTimesOfKey(config, earlier, user, scope);
      KeysAreApart(config, earlier, user, scope);
      AnswerOnKey(config, SetsAfter(config, earlier), last, user, scope);
      var before := AdmittedTimes(config, earlier, user, scope);
      assert before + [] == before;
    }
  }

  /** The clock does not go back between calls. */
  ghost predicate InOrder(calls: seq<Call>) {
    && (forall i :: 0 <= i < |calls| ==> 0 <= calls[i].time)
    && (forall i, j :: 0 <= i < j < |calls| ==> calls[i].time <= calls[j].time)
  }

  lemma {:induction false} CallsAreOrdered(calls: seq<Call>, user: nat, scope: Scope)
    requires InOrder(calls)
    ensures var h := CallsOn(calls, user, scope);
            Ordered(h) && (h.Then? ==> calls != [] && h.time <= calls[|calls| - 1].time)
  {
    if calls != [] {
      CallsAreOrdered(calls[..|calls| - 1], user, scope);
    }
  }

  /** The limiter as a whole: in every interval of the period's length, each user gets at most the chat quota
      of calls through on the three chat paths together, at most the retrieval quota on the search path, and
      at most the upload quota on the upload path, whatever anybody else calls. */
  lemma QuotaPerUserAndScope(config: Quotas, calls: seq<Call>, user: nat, scope: Scope, low: int)
    requires InOrder(calls) && 0 < config.period && 0 <= Quota(config, scope)
    ensures |Within(AdmittedTimes(config, calls, user, scope), low, low + config.period * 1000)|
         <= Quota(config, scope)
  {
    AdmittedTimesOfKey(config, calls, user, scope);
    CallsAreOrdered(calls, user, scope);
    QuotaOnKey(CallsOn(calls, user, scope), AdmittedTimes(config, calls, user, scope), config.period * 1000,
               Quota(config, scope), low);
  }

  lemma QuotaOnKey(h: History, times: seq<int>, window: int, quota: int, low: int)
    requires Ordered(h) && 0 < window && 0 <= quota && times == Admitted(h, window, quota)
    ensures |Within(times, low, low + window)| <= quota
  {
    QuotaHolds(h, window, quota, low);
  }

  /** Fewer than the quota of the user's own calls of the scope were admitted in the period before this one. */
  predicate HasRoom(config: Quotas, calls: seq<Call>, call: Call, scope: Scope) {
    var window := config.period * 1000;
    |Within(AdmittedTimes(config, calls, call.user, scope), call.time - window, call.time)| < Quota(config, scope)
  }

  lemma AnswerIsVerdict(config: Quotas, calls: seq<Call>, call: Call, scope: Scope)
    requires Counts(scope, call.path)
    ensures Admits(config, calls, call)
         == Verdict(CallsOn(calls, call.user, scope), config.period * 1000, Quota(config, scope), call.time).allowed
  {
    KeysAreApart(config, calls, call.user, scope);
    AnswerOnKey(config, SetsAfter(config, calls), call, call.user, scope);
  }

  lemma NextIsOrdered(calls: seq<Call>, call: Call, scope: Scope)
    requires InOrder(calls + [call]) && Counts(scope, call.path)
    ensures Ordered(Then(CallsOn(calls, call.user, scope), call.time))
  {
    var all := calls + [call];
    assert all[..|calls|] == calls && all[|calls|] == call;
    CallsAreOrdered(all, call.user, scope);
  }

  lemma RoomIsCounted(config: Quotas, calls: seq<Call>, call: Call, scope: Scope)
    ensures var h, window, quota := CallsOn(calls, call.user, scope), config.period * 1000, Quota(config, scope);
            HasRoom(config, calls, call, scope) <==> |Counted(h, window, quota, call.time)| < quota
  {
    AdmittedTimesOfKey(config, calls, call.user, scope);
  }

  lemma AdmittedOnScope(config: Quotas, calls: seq<Call>, call: Call, scope: Scope)
    requires InOrder(calls + [call]) && 0 < config.period && Counts(scope, call.path)
    ensures Admits(config, calls, call) <==> HasRoom(config, calls, call, scope)
  {
    var h := CallsOn(calls, call.user, scope);
    NextIsOrdered(calls, call, scope);
    AdmittedIffBelowQuota(h, config.period * 1000, Quota(config, scope), call.time);
    RoomIsCounted(config, calls, call, scope);
    AnswerIsVerdict(config, calls, call, scope);
  }

  /** And no user is turned away for another's calls: a call is admitted exactly when it counts towards no
      quota, or the user's own calls leave room in the quota it counts towards. */
  lemma AdmittedByOwnCalls(config: Quotas, calls: seq<Call>, call: Call)
    requires InOrder(calls + [call]) && 0 < config.period
    ensures Admits(config, calls, call) <==>
              forall scope :: Counts(scope, call.path) ==> HasRoom(config, calls, call, scope)
  {
    forall scope | Counts(scope, call.path)
      ensures Admits(config, calls, call) <==> HasRoom(config, calls, call, scope)
    {
      AdmittedOnScope(config, calls, call, scope);
    }
    PolicyMeans(config, call.path, Chat);
    PolicyMeans(config, call.path, Retrieval);
    PolicyMeans(config, call.path, Upload);
  }
}
