/** The in-memory sliding-window limiter and the guarantee it gives over any history of calls. */
module MemoryLimiting {
  import opened SlidingWindow

  /** 60 seconds, in nanoseconds. */
  const WINDOW := 60_000_000_000

  datatype RateResult = RateResult(allowed: bool, remaining: int, resetAt: int)

  type Requests = map<string, seq<int>>

  function Entries(m: Requests, key: string): seq<int> {
    if key in m then m[key] else []
  }

  function Remaining(limit: int, used: int): int {
    if limit - used < 0 then 0 else limit - used
  }

  predicate Allows(m: Requests, key: string, limit: int, now: int) {
    |Dropped(Entries(m, key), now - WINDOW)| < limit
  }

  function AfterCheck(m: Requests, key: string, limit: int, now: int): Requests {
    var live := Dropped(Entries(m, key), now - WINDOW);
    m[key := if |live| < limit then live + [now] else live]
  }

  function AfterCount(m: Requests, key: string, now: int): Requests {
    m[key := Dropped(Entries(m, key), now - WINDOW)]
  }

  function AfterCleanup(m: Requests, now: int): Requests {
    map key | key in m && Dropped(m[key], now - WINDOW) != [] :: Dropped(m[key], now - WINDOW)
  }

  method Trim(entries: seq<int>, cutoff: int) returns (rest: seq<int>)
    ensures rest == Dropped(entries, cutoff)
  {
    var i := 0;
    while i < |entries| && entries[i] < cutoff
      invariant 0 <= i <= |entries|
      invariant Dropped(entries, cutoff) == Dropped(entries[i..], cutoff)
    {
      assert entries[i..][1..] == entries[i + 1..];
      i := i + 1;
    }
    rest := entries[i..];
  }

  class MemoryLimiter {
    var requests: Requests

    constructor ()
      ensures requests == map[]
    {
      requests := map[];
    }

    method CheckAndConsume(key: string, limit: int, now: int) returns (r: RateResult)
      modifies this
      ensures requests == AfterCheck(old(requests), key, limit, now)
      ensures r.allowed <==> Allows(old(requests), key, limit, now)
      ensures r.allowed ==> r.remaining == Remaining(limit, |requests[key]|)
      ensures !r.allowed ==> r.remaining == 0
      ensures r.resetAt == now + WINDOW
    {
      var stored := if key in requests then requests[key] else [];
      var entries := Trim(stored, now - WINDOW);
      if |entries| >= limit {
        requests := requests[key := entries];
        return RateResult(false, 0, now + WINDOW);
      }
      entries := entries + [now];
      requests := requests[key := entries];
      var remaining := limit - |entries|;
      if remaining < 0 {
        remaining := 0;
      }
      return RateResult(true, remaining, now + WINDOW);
    }

    method Count(key: string, now: int) returns (n: nat)
      modifies this
      ensures requests == AfterCount(old(requests), key, now)
      ensures n == |Dropped(Entries(old(requests), key), now - WINDOW)|
    {
      var stored := if key in requests then requests[key] else [];
      var entries := Trim(stored, now - WINDOW);
      requests := requests[key := entries];
      return |entries|;
    }

    /** One tick of the cleanup loop; the keys are visited in any order. */
    method Cleanup(now: int)
      modifies this
      ensures requests == AfterCleanup(old(requests), now)
    {
      var keys := requests.Keys;
      while keys != {}
        invariant keys <= old(requests).Keys
        invariant requests.Keys <= old(requests).Keys
        invariant forall k :: k in keys ==> k in requests && requests[k] == old(requests)[k]
        invariant forall k :: k in old(requests) && k !in keys ==>
          (k in requests <==> Dropped(old(requests)[k], now - WINDOW) != [])
        invariant forall k :: k in requests && k !in keys ==> requests[k] == Dropped(old(requests)[k], now - WINDOW)
        decreases keys
      {
        var key :| key in keys;
        keys := keys - {key};
        var trimmed := Trim(requests[key], now - WINDOW);
        if |trimmed| == 0 {
          requests := requests - {key};
        } else {
          requests := requests[key := trimmed];
        }
      }
    }
  }

  // ---------------------------------------------------------------- histories

  datatype Call =
    | Check(key: string, limit: int, now: int)
    | CountCall(key: string, now: int)
    | CleanupCall(now: int)

  /** Calls take the mutex one at a time and the clock does not run backwards. */
  ghost predicate InClockOrder(calls: seq<Call>) {
    forall i, j :: 0 <= i < j < |calls| ==> calls[i].now <= calls[j].now
  }

  function After(m: Requests, call: Call): Requests {
    match call
    case Check(key, limit, now) => AfterCheck(m, key, limit, now)
    case CountCall(key, now) => AfterCount(m, key, now)
    case CleanupCall(now) => AfterCleanup(m, now)
  }

  function State(calls: seq<Call>): Requests {
    if calls == [] then map[] else After(State(calls[..|calls| - 1]), calls[|calls| - 1])
  }

  predicate AcceptsAt(m: Requests, key: string, call: Call) {
    call.Check? && call.key == key && Allows(m, key, call.limit, call.now)
  }

  /** Every request the limiter has ever accepted for a key: the full history, never trimmed. */
  function Accepted(calls: seq<Call>, key: string): seq<int> {
    if calls == [] then []
    else
      var past, call := calls[..|calls| - 1], calls[|calls| - 1];
      Accepted(past, key) + if AcceptsAt(State(past), key, call) then [call.now] else []
  }

  /** What is stored answers every later question as the full history would. */
  ghost predicate Agrees(stored: seq<int>, history: seq<int>, since: int) {
    forall c :: since <= c ==> Dropped(stored, c) == Dropped(history, c)
  }

  lemma DroppedAgrees(stored: seq<int>, history: seq<int>, since: int, cutoff: int)
    requires Agrees(stored, history, since) && since <= cutoff
    ensures Agrees(Dropped(stored, cutoff), history, cutoff)
  {
    forall c | cutoff <= c
      ensures Dropped(Dropped(stored, cutoff), c) == Dropped(history, c)
    {
      DroppedTwice(stored, cutoff, c);
    }
  }

  lemma {:induction false} DroppedAll(s: seq<int>, cutoff: int)
    requires UpTo(s, cutoff - 1)
    ensures Dropped(s, cutoff) == []
  {
    if s != [] {
      DroppedAll(s[1..], cutoff);
    }
  }

  lemma AppendAgrees(stored: seq<int>, history: seq<int>, now: int, since: int)
    requires Agrees(stored, history, since) && UpTo(stored, now) && UpTo(history, now)
    ensures Agrees(stored + [now], history + [now], since)
  {
    forall c | since <= c
      ensures Dropped(stored + [now], c) == Dropped(history + [now], c)
    {
      if c <= now {
        DroppedAppend(stored, now, c);
        DroppedAppend(history, now, c);
      } else {
        DroppedAll(stored + [now], c);
        DroppedAll(history + [now], c);
      }
    }
  }

  /** What one call does to one key's entries. */
  lemma EntriesAfter(m: Requests, key: string, call: Call)
    ensures var before, after := Entries(m, key), Entries(After(m, call), key);
      var live := Dropped(before, call.now - WINDOW);
      if AcceptsAt(m, key, call) then after == live + [call.now] else after in {live, before}
  {
  }

  lemma StepAgrees(m: Requests, history: seq<int>, key: string, call: Call)
    requires UpTo(Entries(m, key), call.now) && UpTo(history, call.now)
    requires Agrees(Entries(m, key), history, call.now - WINDOW)
    ensures var history' := history + if AcceptsAt(m, key, call) then [call.now] else [];
      var after := Entries(After(m, call), key);
      UpTo(after, call.now) && Agrees(after, history', call.now - WINDOW)
  {
    var before := Entries(m, key);
    EntriesAfter(m, key, call);
    DroppedAgrees(before, history, call.now - WINDOW, call.now - WINDOW);
    DroppedUpTo(before, call.now - WINDOW, call.now);
    if AcceptsAt(m, key, call) {
      AppendAgrees(Dropped(before, call.now - WINDOW), history, call.now, call.now - WINDOW);
    } else {
      assert history + [] == history;
    }
  }

  /** The history is in clock order, and trimming and cleanup have not lost anything that still counts. */
  lemma {:induction false} HistoryInvariant(calls: seq<Call>, key: string, now: int)
    requires InClockOrder(calls)
    requires calls != [] ==> calls[|calls| - 1].now <= now
    ensures Sorted(Accepted(calls, key)) && UpTo(Accepted(calls, key), now)
    ensures UpTo(Entries(State(calls), key), now)
    ensures Agrees(Entries(State(calls), key), Accepted(calls, key), now - WINDOW)
  {
    if calls != [] {
      var past, call := calls[..|calls| - 1], calls[|calls| - 1];
      HistoryInvariant(past, key, call.now);
      StepAgrees(State(past), Accepted(past, key), key, call);
    }
  }

  lemma {:induction false} DroppedUpTo(s: seq<int>, cutoff: int, last: int)
    requires UpTo(s, last)
    ensures UpTo(Dropped(s, cutoff), last)
  {
    if s != [] && s[0] < cutoff {
      DroppedUpTo(s[1..], cutoff, last);
    }
  }

  /** Each decision is the one computed from the full accepted history over the closed last 60 seconds. */
  lemma DecisionsMatchFullHistory(calls: seq<Call>, key: string, limit: int, now: int)
    requires InClockOrder(calls)
    requires calls != [] ==> calls[|calls| - 1].now <= now
    ensures Allows(State(calls), key, limit, now) <==> CountIn(Accepted(calls, key), now - WINDOW, now) < limit
  {
    HistoryInvariant(calls, key, now);
    LiveIsWindow(Accepted(calls, key), now - WINDOW, now);
  }

  ghost predicate ConstantLimit(calls: seq<Call>, key: string, limit: int) {
    forall i :: 0 <= i < |calls| && calls[i].Check? && calls[i].key == key ==> calls[i].limit == limit
  }

  /** No closed 60-second interval ever contains more accepted requests for a key than its limit. */
  lemma {:induction false} AnyWindowBound(calls: seq<Call>, key: string, limit: nat)
    requires InClockOrder(calls) && ConstantLimit(calls, key, limit)
    ensures WindowBound(Accepted(calls, key), WINDOW, limit)
  {
    if calls != [] {
      var past, call := calls[..|calls| - 1], calls[|calls| - 1];
      AnyWindowBound(past, key, limit);
      if AcceptsAt(State(past), key, call) {
        DecisionsMatchFullHistory(past, key, limit, call.now);
        HistoryInvariant(past, key, call.now);
        AcceptKeepsBound(Accepted(past, key), call.now, WINDOW, limit);
      } else {
        assert Accepted(calls, key) == Accepted(past, key);
      }
    }
  }

  /** The quota reported to an accepted request is the limit less what the closed last 60 seconds now hold. */
  lemma RemainingIsQuotaLeft(calls: seq<Call>, key: string, limit: int, now: int)
    requires InClockOrder(calls) && (calls != [] ==> calls[|calls| - 1].now <= now)
    requires Allows(State(calls), key, limit, now)
    ensures var after := calls + [Check(key, limit, now)];
      && key in State(after)
      && Remaining(limit, |State(after)[key]|) == limit - CountIn(Accepted(after, key), now - WINDOW, now)
  {
    var after := calls + [Check(key, limit, now)];
    assert after[..|calls|] == calls;
    HistoryInvariant(calls, key, now);
    LiveIsWindow(Accepted(calls, key), now - WINDOW, now);
    CountAppend(Accepted(calls, key), now, now - WINDOW, now);
  }
}
