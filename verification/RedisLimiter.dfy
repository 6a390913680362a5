/** The Redis sliding-window script, and the limiter that falls back to memory when Redis fails. */
module RedisLimiting {
  import opened SlidingWindow
  import Memory = MemoryLimiting

  const WINDOW_MS := 60_000
  const MAX_ENTRIES := 10_000
  const NANOS_PER_MILLI := 1_000_000

  /** One sorted set: members are fresh UUIDs, so only the scores, in rank order, matter. */
  datatype ZKey = ZKey(scores: seq<int>, expireAt: int)

  type Redis = map<string, ZKey>

  /** What a script sees that runs at a given time of the server's clock: an expired key is gone. */
  function Visible(db: Redis, key: string, ranAt: int): seq<int> {
    if key in db && ranAt <= db[key].expireAt then db[key].scores else []
  }

  /** ZREMRANGEBYSCORE key -inf now - window, by the caller's reading of its own clock. */
  function Live(db: Redis, key: string, now: int, ranAt: int): seq<int> {
    Dropped(Visible(db, key, ranAt), now - WINDOW_MS + 1)
  }

  function ZAdd(scores: seq<int>, score: int): seq<int> {
    if scores == [] || scores[|scores| - 1] <= score then scores + [score]
    else ZAdd(scores[..|scores| - 1], score) + [scores[|scores| - 1]]
  }

  /** ZREMRANGEBYRANK key 0 -max-1: keep the highest-ranked entries. */
  function Capped(scores: seq<int>): seq<int> {
    if |scores| > MAX_ENTRIES then scores[|scores| - MAX_ENTRIES..] else scores
  }

  /** Removing the last member of a sorted set removes the key. */
  function Stored(db: Redis, key: string, scores: seq<int>): Redis {
    if scores == [] || key !in db then db - {key} else db[key := db[key].(scores := scores)]
  }

  predicate ScriptAllows(db: Redis, key: string, limit: int, now: int, ranAt: int) {
    |Live(db, key, now, ranAt)| < limit
  }

  /** PEXPIRE counts from the server's clock. */
  function AfterScript(db: Redis, key: string, limit: int, now: int, ranAt: int): Redis {
    var live := Live(db, key, now, ranAt);
    if |live| >= limit then Stored(db, key, live)
    else db[key := ZKey(Capped(ZAdd(live, now)), ranAt + WINDOW_MS)]
  }

  function AfterCountScript(db: Redis, key: string, now: int, ranAt: int): Redis {
    Stored(db, key, Live(db, key, now, ranAt))
  }

  // ---------------------------------------------------------------- script histories

  /** A script carries the caller's reading and runs at a later time of the server's clock. */
  datatype Call =
    | Script(key: string, limit: int, now: int, ranAt: int)
    | CountScript(key: string, now: int, ranAt: int)

  /** The server's clock does not run backwards, and a reading is made before its script runs. */
  ghost predicate InServerOrder(calls: seq<Call>) {
    && (forall i, j :: 0 <= i < j < |calls| ==> calls[i].ranAt <= calls[j].ranAt)
    && (forall i :: 0 <= i < |calls| ==> calls[i].now <= calls[i].ranAt)
  }

  /** Every script runs at most d milliseconds after its reading. */
  ghost predicate Timely(calls: seq<Call>, d: nat) {
    InServerOrder(calls) && forall i :: 0 <= i < |calls| ==> calls[i].ranAt <= calls[i].now + d
  }

  /** Readings may then be out of order, by at most d: the limiter reads its clock under no lock. */
  lemma DelayBoundsDisorder(calls: seq<Call>, d: nat, i: nat, j: nat)
    requires Timely(calls, d) && i < j < |calls|
    ensures calls[i].now <= calls[j].now + d
  {
    assert calls[i].now <= calls[i].ranAt <= calls[j].ranAt <= calls[j].now + d;
  }

  ghost predicate WithinCap(calls: seq<Call>, key: string) {
    forall i :: 0 <= i < |calls| && calls[i].Script? && calls[i].key == key ==> calls[i].limit <= MAX_ENTRIES
  }

  function After(db: Redis, call: Call): Redis {
    match call
    case Script(key, limit, now, ranAt) => AfterScript(db, key, limit, now, ranAt)
    case CountScript(key, now, ranAt) => AfterCountScript(db, key, now, ranAt)
  }

  function State(calls: seq<Call>): Redis {
    if calls == [] then map[] else After(State(calls[..|calls| - 1]), calls[|calls| - 1])
  }

  predicate AcceptsAt(db: Redis, key: string, call: Call) {
    call.Script? && call.key == key && ScriptAllows(db, key, call.limit, call.now, call.ranAt)
  }

  /** Every stamp the script has ever recorded for a key. */
  function Accepted(calls: seq<Call>, key: string): seq<int> {
    if calls == [] then []
    else
      var past, call := calls[..|calls| - 1], calls[|calls| - 1];
      Accepted(past, key) + if AcceptsAt(State(past), key, call) then [call.now] else []
  }

  function Scores(db: Redis, key: string): seq<int> {
    if key in db then db[key].scores else []
  }

  /**
   * What is stored is part of the history, and all of it that lies within a window of the latest run;
   * a key can only expire when everything in it is older than that.
   */
  ghost predicate Retains(db: Redis, key: string, history: seq<int>, latest: int) {
    && UpTo(history, latest) && UpTo(Scores(db, key), latest) && Sorted(Scores(db, key))
    && (key in db ==> UpTo(history, db[key].expireAt - WINDOW_MS))
    && (forall low, high :: CountIn(Scores(db, key), low, high) <= CountIn(history, low, high))
    && (forall low, high :: latest - WINDOW_MS < low ==>
          CountIn(history, low, high) <= CountIn(Scores(db, key), low, high))
  }

  lemma {:induction false} ZAddIsSorted(scores: seq<int>, score: int)
    requires Sorted(scores)
    ensures Sorted(ZAdd(scores, score)) && |ZAdd(scores, score)| == |scores| + 1
    ensures forall x :: x in ZAdd(scores, score) <==> x in scores || x == score
  {
    if scores != [] && scores[|scores| - 1] > score {
      var front, last := scores[..|scores| - 1], scores[|scores| - 1];
      assert scores == front + [last];
      ZAddIsSorted(front, score);
      assert forall i :: 0 <= i < |ZAdd(front, score)| ==> ZAdd(front, score)[i] in ZAdd(front, score);
    }
  }

  lemma {:induction false} ZAddCounts(scores: seq<int>, score: int, low: int, high: int)
    ensures CountIn(ZAdd(scores, score), low, high)
      == CountIn(scores, low, high) + if low <= score <= high then 1 else 0
  {
    if scores == [] || scores[|scores| - 1] <= score {
      CountAppend(scores, score, low, high);
    } else {
      var front, last := scores[..|scores| - 1], scores[|scores| - 1];
      ZAddCounts(front, score, low, high);
      CountAppend(ZAdd(front, score), last, low, high);
    }
  }

  /** A script sees at least the history within a window of its run, at most that within a window of its reading. */
  lemma LiveBrackets(db: Redis, key: string, history: seq<int>, latest: int, now: int, ranAt: int)
    requires Retains(db, key, history, latest) && now <= ranAt && latest <= ranAt
    ensures Sorted(Live(db, key, now, ranAt)) && UpTo(Live(db, key, now, ranAt), latest)
    ensures forall low, high :: CountIn(Live(db, key, now, ranAt), low, high) <= CountIn(history, low, high)
    ensures forall low, high :: ranAt - WINDOW_MS < low ==>
      CountIn(history, low, high) <= CountIn(Live(db, key, now, ranAt), low, high)
    ensures |Live(db, key, now, ranAt)| <= CountIn(history, now - WINDOW_MS + 1, ranAt)
  {
    var cutoff, live := now - WINDOW_MS + 1, Live(db, key, now, ranAt);
    DroppedWindows(Visible(db, key, ranAt), cutoff);
    if key in db && db[key].expireAt < ranAt {
      forall low, high | ranAt - WINDOW_MS < low
        ensures CountIn(history, low, high) == 0
      {
        CountAbove(history, low, high, db[key].expireAt - WINDOW_MS);
      }
    } else {
      assert Visible(db, key, ranAt) == Scores(db, key);
    }
    assert forall i :: 0 <= i < |live| ==> live[i] in live;
    CountAtMostLength(live, cutoff, ranAt);
  }

  lemma TrimRetains(db: Redis, key: string, history: seq<int>, latest: int, now: int, ranAt: int)
    requires Retains(db, key, history, latest) && now <= ranAt && latest <= ranAt
    ensures Retains(AfterCountScript(db, key, now, ranAt), key, history, ranAt)
  {
    hide Live;
    LiveBrackets(db, key, history, latest, now, ranAt);
    assert Live(db, key, now, ranAt) != [] ==> key in db by {
      LiveNeedsKey(db, key, now, ranAt);
    }
    assert Scores(AfterCountScript(db, key, now, ranAt), key) == Live(db, key, now, ranAt);
  }

  lemma LiveNeedsKey(db: Redis, key: string, now: int, ranAt: int)
    ensures key !in db ==> Live(db, key, now, ranAt) == []
  {
  }

  lemma AcceptRetains(db: Redis, key: string, history: seq<int>, latest: int, limit: int, now: int, ranAt: int)
    requires Retains(db, key, history, latest) && now <= ranAt && latest <= ranAt
    requires ScriptAllows(db, key, limit, now, ranAt) && limit <= MAX_ENTRIES
    ensures Retains(AfterScript(db, key, limit, now, ranAt), key, history + [now], ranAt)
  {
    hide Live;
    var live := Live(db, key, now, ranAt);
    LiveBrackets(db, key, history, latest, now, ranAt);
    ZAddIsSorted(live, now);
    var scores := ZAdd(live, now);
    assert Capped(scores) == scores && Scores(AfterScript(db, key, limit, now, ranAt), key) == scores;
    hide AfterScript, ZAdd;
    assert UpTo(scores, ranAt) by {
      assert forall i :: 0 <= i < |scores| ==> scores[i] in scores;
    }
    forall low, high
      ensures CountIn(history + [now], low, high) == CountIn(history, low, high) + if low <= now <= high then 1 else 0
      ensures CountIn(scores, low, high) == CountIn(live, low, high) + if low <= now <= high then 1 else 0
    {
      CountAppend(history, now, low, high);
      ZAddCounts(live, now, low, high);
    }
    NewExpiry(db, key, limit, now, ranAt);
  }

  lemma NewExpiry(db: Redis, key: string, limit: int, now: int, ranAt: int)
    requires ScriptAllows(db, key, limit, now, ranAt)
    ensures key in AfterScript(db, key, limit, now, ranAt)
    ensures AfterScript(db, key, limit, now, ranAt)[key].expireAt == ranAt + WINDOW_MS
  {
  }

  lemma LaterRetains(db: Redis, key: string, history: seq<int>, latest: int, ranAt: int)
    requires Retains(db, key, history, latest) && latest <= ranAt
    ensures Retains(db, key, history, ranAt)
  {
  }

  lemma StepRetains(db: Redis, key: string, history: seq<int>, latest: int, call: Call)
    requires Retains(db, key, history, latest) && call.now <= call.ranAt && latest <= call.ranAt
    requires call.Script? && call.key == key ==> call.limit <= MAX_ENTRIES
    ensures Retains(After(db, call), key, history + if AcceptsAt(db, key, call) then [call.now] else [], call.ranAt)
  {
    if AcceptsAt(db, key, call) {
      AcceptRetains(db, key, history, latest, call.limit, call.now, call.ranAt);
    } else {
      assert history + [] == history;
      if call.key == key {
        TrimRetains(db, key, history, latest, call.now, call.ranAt);
      } else {
        LaterRetains(db, key, history, latest, call.ranAt);
        OtherKeyUntouched(db, key, call);
      }
    }
  }

  lemma OtherKeyUntouched(db: Redis, key: string, call: Call)
    requires call.key != key
    ensures key in After(db, call) <==> key in db
    ensures key in db ==> After(db, call)[key] == db[key]
  {
  }

  /** No script so far ran later than `latest`. */
  ghost predicate RanBy(calls: seq<Call>, latest: int) {
    calls != [] ==> calls[|calls| - 1].ranAt <= latest
  }

  lemma {:induction false} HistoryInvariant(calls: seq<Call>, key: string, latest: int)
    requires InServerOrder(calls) && WithinCap(calls, key) && RanBy(calls, latest)
    ensures Retains(State(calls), key, Accepted(calls, key), latest)
  {
    hide Retains, After, AcceptsAt;
    if calls == [] {
      NothingRetained(key, latest);
    } else {
      var past, call := calls[..|calls| - 1], calls[|calls| - 1];
      HistoryInvariant(past, key, call.ranAt);
      StepRetains(State(past), key, Accepted(past, key), call.ranAt, call);
      LaterRetains(State(calls), key, Accepted(calls, key), call.ranAt, latest);
    }
  }

  lemma NothingRetained(key: string, latest: int)
    ensures Retains(map[], key, [], latest)
  {
  }

  /**
   * With limits up to the cap, the script refuses whenever the 60 seconds before its run are full, and
   * accepts whenever the 60 seconds before its reading have room; the two differ by its delay.
   */
  lemma ScriptMatchesHistory(calls: seq<Call>, key: string, limit: int, now: int, ranAt: int)
    requires InServerOrder(calls) && WithinCap(calls, key) && RanBy(calls, ranAt) && now <= ranAt
    ensures ScriptAllows(State(calls), key, limit, now, ranAt) ==>
      CountIn(Accepted(calls, key), ranAt - WINDOW_MS + 1, ranAt) < limit
    ensures CountIn(Accepted(calls, key), now - WINDOW_MS + 1, ranAt) < limit ==>
      ScriptAllows(State(calls), key, limit, now, ranAt)
  {
    hide Live;
    HistoryInvariant(calls, key, ranAt);
    LiveBrackets(State(calls), key, Accepted(calls, key), ranAt, now, ranAt);
    CountAtMostLength(Live(State(calls), key, now, ranAt), ranAt - WINDOW_MS + 1, ranAt);
  }

  /** A script that runs at its reading accepts exactly when the half-open last 60 seconds have room. */
  lemma ScriptMatchesFullHistory(calls: seq<Call>, key: string, limit: int, now: int)
    requires InServerOrder(calls) && WithinCap(calls, key) && RanBy(calls, now)
    ensures ScriptAllows(State(calls), key, limit, now, now)
      <==> CountIn(Accepted(calls, key), now - WINDOW_MS + 1, now) < limit
  {
    ScriptMatchesHistory(calls, key, limit, now, now);
  }

  /** For such a script the quota reported is the limit less what those 60 seconds now hold. */
  lemma RemainingIsQuotaLeft(calls: seq<Call>, key: string, limit: int, now: int)
    requires InServerOrder(calls) && WithinCap(calls, key) && RanBy(calls, now)
    requires ScriptAllows(State(calls), key, limit, now, now)
    ensures Memory.Remaining(limit, |Live(State(calls), key, now, now)| + 1)
      == limit - CountIn(Accepted(calls + [Script(key, limit, now, now)], key), now - WINDOW_MS + 1, now)
  {
    LastAccepted(calls, Script(key, limit, now, now), key);
    CountAppend(Accepted(calls, key), now, now - WINDOW_MS + 1, now);
    hide Accepted, State;
    LiveIsWindowCount(calls, key, now);
  }

  lemma LiveIsWindowCount(calls: seq<Call>, key: string, now: int)
    requires InServerOrder(calls) && WithinCap(calls, key) && RanBy(calls, now)
    ensures |Live(State(calls), key, now, now)| == CountIn(Accepted(calls, key), now - WINDOW_MS + 1, now)
  {
    hide Live;
    HistoryInvariant(calls, key, now);
    LiveBrackets(State(calls), key, Accepted(calls, key), now, now, now);
    CountAtMostLength(Live(State(calls), key, now, now), now - WINDOW_MS + 1, now);
  }

  ghost predicate ConstantLimit(calls: seq<Call>, key: string, limit: int) {
    forall i :: 0 <= i < |calls| && calls[i].Script? && calls[i].key == key ==> calls[i].limit == limit
  }

  /** The histories the bound is about: one limit for the key, within the cap, scripts at most d late. */
  ghost predicate Admissible(calls: seq<Call>, key: string, limit: nat, d: nat) {
    Timely(calls, d) && ConstantLimit(calls, key, limit) && limit <= MAX_ENTRIES
  }

  /** No window of 60 seconds less d, half open, holds more recorded requests than the limit. */
  lemma {:induction false} ScriptWindowBound(calls: seq<Call>, key: string, limit: nat, d: nat)
    requires Admissible(calls, key, limit, d)
    ensures WindowBound(Accepted(calls, key), WINDOW_MS - 1 - d, limit)
  {
    if calls != [] {
      var past, call := calls[..|calls| - 1], calls[|calls| - 1];
      ScriptWindowBound(past, key, limit, d);
      if AcceptsAt(State(past), key, call) {
        HistoryInvariant(past, key, call.ranAt);
        AcceptedFits(State(past), key, Accepted(past, key), call.now, call.ranAt, limit, d);
      } else {
        assert Accepted(calls, key) == Accepted(past, key);
      }
    }
  }

  lemma AcceptedFits(db: Redis, key: string, history: seq<int>, now: int, ranAt: int, limit: nat, d: nat)
    requires Retains(db, key, history, ranAt) && now <= ranAt <= now + d && ScriptAllows(db, key, limit, now, ranAt)
    requires WindowBound(history, WINDOW_MS - 1 - d, limit)
    ensures WindowBound(history + [now], WINDOW_MS - 1 - d, limit)
  {
    hide Live;
    LiveBrackets(db, key, history, ranAt, now, ranAt);
    forall low, high | high - low <= WINDOW_MS - 1 - d
      ensures CountIn(history + [now], low, high) <= limit
    {
      CountAppend(history, now, low, high);
      CountAtMostLength(Live(db, key, now, ranAt), low, high);
      assert CountIn(history, low, high) <= limit;
    }
  }

  ghost predicate BoundHolds(width: int, d: nat) {
    forall calls, key, limit: nat :: Admissible(calls, key, limit, d) ==>
      WindowBound(Accepted(calls, key), width, limit)
  }

  lemma LastAccepted(calls: seq<Call>, call: Call, key: string)
    ensures State(calls + [call]) == After(State(calls), call)
    ensures Accepted(calls + [call], key)
      == Accepted(calls, key) + if AcceptsAt(State(calls), key, call) then [call.now] else []
  {
    assert (calls + [call])[..|calls|] == calls;
  }

  /** A script with room for one more, and what it stores. */
  lemma AcceptedScript(calls: seq<Call>, key: string, limit: int, now: int, ranAt: int, seen: seq<int>)
    requires Live(State(calls), key, now, ranAt) == seen && |seen| < limit <= MAX_ENTRIES
    ensures Accepted(calls + [Script(key, limit, now, ranAt)], key) == Accepted(calls, key) + [now]
    ensures Keeps(State(calls + [Script(key, limit, now, ranAt)]), key, ZAdd(seen, now), ranAt + WINDOW_MS)
  {
    hide ZAdd, Live;
    LastAccepted(calls, Script(key, limit, now, ranAt), key);
    ZAddLength(seen, now);
  }

  lemma {:induction false} ZAddLength(scores: seq<int>, score: int)
    ensures |ZAdd(scores, score)| == |scores| + 1
  {
    if scores != [] && scores[|scores| - 1] > score {
      ZAddLength(scores[..|scores| - 1], score);
    }
  }

  ghost predicate Keeps(db: Redis, key: string, scores: seq<int>, expireAt: int) {
    key in db && db[key] == ZKey(scores, expireAt)
  }

  /** Before it expires, a key shows its scores when none is older than the window. */
  lemma SeenScores(db: Redis, key: string, scores: seq<int>, expireAt: int, now: int, ranAt: int)
    requires Keeps(db, key, scores, expireAt) && ranAt <= expireAt
    requires scores != [] ==> now - WINDOW_MS < scores[0]
    ensures Live(db, key, now, ranAt) == scores
  {
  }

  // ---------------------------------------------------------------- late readings

  function Copies<T>(n: nat, x: T): seq<T> {
    seq(n, _ => x)
  }

  lemma {:induction false} CountCopies(s: seq<int>, n: nat, x: int, low: int, high: int)
    ensures CountIn(s + Copies(n, x), low, high) == CountIn(s, low, high) + if low <= x <= high then n else 0
  {
    if n == 0 {
      assert s + Copies(n, x) == s;
    } else {
      CountCopies(s, n - 1, x, low, high);
      assert s + Copies(n, x) == s + Copies(n - 1, x) + [x];
      CountAppend(s + Copies(n - 1, x), x, low, high);
    }
  }

  lemma NothingToCount(low: int, high: int)
    ensures CountIn([], low, high) == 0
  {
  }

  /** Up to the limit, requests at one instant are all accepted. */
  lemma {:induction false} BurstIsAccepted(key: string, limit: nat, k: nat)
    requires k <= limit <= MAX_ENTRIES
    ensures Accepted(Copies(k, Script(key, limit, 0, 0)), key) == Copies(k, 0)
    ensures k > 0 ==> Keeps(State(Copies(k, Script(key, limit, 0, 0))), key, Copies(k, 0), WINDOW_MS)
  {
    var call := Script(key, limit, 0, 0);
    if k > 0 {
      BurstIsAccepted(key, limit, k - 1);
      assert Copies(k, call) == Copies(k - 1, call) + [call];
      assert Copies(k, 0) == Copies(k - 1, 0) + [0];
      if k == 1 {
        assert Live(State(Copies(0, call)), key, 0, 0) == [];
      }
      hide State, Accepted, Live, Keeps;
      if k > 1 {
        SeenScores(State(Copies(k - 1, call)), key, Copies(k - 1, 0), WINDOW_MS, 0, 0);
      }
      AcceptedScript(Copies(k - 1, call), key, limit, 0, 0, Copies(k - 1, 0));
    }
  }

  /** A full burst, one request a window later, and k more that run with it but read their clock d before. */
  function Reordered(key: string, limit: nat, d: nat, k: nat): (calls: seq<Call>)
    ensures forall i :: 0 <= i < |calls| ==> calls[i].Script? && calls[i].key == key
  {
    Copies(limit, Script(key, limit, 0, 0)) + [Script(key, limit, WINDOW_MS, WINDOW_MS)]
    + Copies(k, Script(key, limit, WINDOW_MS - d, WINDOW_MS))
  }

  lemma ReorderedIsAdmissible(key: string, limit: nat, d: nat, k: nat)
    requires limit <= MAX_ENTRIES
    ensures Admissible(Reordered(key, limit, d, k), key, limit, d)
  {
  }

  /** The request a window later removes the burst. */
  lemma BurstIsTrimmed(db: Redis, key: string, n: nat)
    requires Keeps(db, key, Copies(n, 0), WINDOW_MS)
    ensures Live(db, key, WINDOW_MS, WINDOW_MS) == []
  {
    Memory.DroppedAll(Copies(n, 0), 1);
  }

  lemma {:induction false} ReorderedIsAccepted(key: string, limit: nat, d: nat, k: nat) returns (scores: seq<int>)
    requires 1 <= limit <= MAX_ENTRIES && k < limit && d < WINDOW_MS
    ensures Accepted(Reordered(key, limit, d, k), key) == Copies(limit, 0) + [WINDOW_MS] + Copies(k, WINDOW_MS - d)
    ensures |scores| == k + 1 && forall i :: 0 <= i <= k ==> WINDOW_MS - d <= scores[i] <= WINDOW_MS
    ensures Keeps(State(Reordered(key, limit, d, k)), key, scores, 2 * WINDOW_MS)
    decreases k
  {
    hide State, Accepted, Live, Keeps;
    var burst, next := Copies(limit, Script(key, limit, 0, 0)), Script(key, limit, WINDOW_MS, WINDOW_MS);
    var late := Script(key, limit, WINDOW_MS - d, WINDOW_MS);
    assert WINDOW_MS + WINDOW_MS == 2 * WINDOW_MS;
    if k == 0 {
      BurstIsAccepted(key, limit, limit);
      BurstIsTrimmed(State(burst), key, limit);
      AcceptedScript(burst, key, limit, WINDOW_MS, WINDOW_MS, []);
      assert ZAdd([], WINDOW_MS) == [WINDOW_MS];
      assert Reordered(key, limit, d, 0) == burst + [next];
      assert Copies(limit, 0) + [WINDOW_MS] + Copies(0, WINDOW_MS - d) == Copies(limit, 0) + [WINDOW_MS];
      scores := [WINDOW_MS];
    } else {
      var before := ReorderedIsAccepted(key, limit, d, k - 1);
      var calls := Reordered(key, limit, d, k - 1);
      SeenScores(State(calls), key, before, 2 * WINDOW_MS, WINDOW_MS - d, WINDOW_MS);
      AcceptedScript(calls, key, limit, WINDOW_MS - d, WINDOW_MS, before);
      ZAddWithin(before, WINDOW_MS - d, WINDOW_MS - d, WINDOW_MS);
      scores := ZAdd(before, WINDOW_MS - d);
      assert Copies(k, late) == Copies(k - 1, late) + [late];
      assert Reordered(key, limit, d, k) == calls + [late];
      assert Copies(k, WINDOW_MS - d) == Copies(k - 1, WINDOW_MS - d) + [WINDOW_MS - d];
      assert Copies(limit, 0) + [WINDOW_MS] + Copies(k - 1, WINDOW_MS - d) + [WINDOW_MS - d]
        == Copies(limit, 0) + [WINDOW_MS] + Copies(k, WINDOW_MS - d);
    }
  }

  lemma {:induction false} ZAddWithin(scores: seq<int>, score: int, low: int, high: int)
    requires low <= score <= high && forall i :: 0 <= i < |scores| ==> low <= scores[i] <= high
    ensures |ZAdd(scores, score)| == |scores| + 1
    ensures forall i :: 0 <= i < |ZAdd(scores, score)| ==> low <= ZAdd(scores, score)[i] <= high
  {
    if scores != [] && scores[|scores| - 1] > score {
      ZAddWithin(scores[..|scores| - 1], score, low, high);
    }
  }

  /** Scripts that run d after their reading let 2L - 1 requests into a window of 60 seconds less d. */
  lemma ReorderingExceedsLimit(key: string, limit: nat, d: nat)
    requires 1 <= limit <= MAX_ENTRIES && d < WINDOW_MS
    ensures Admissible(Reordered(key, limit, d, limit - 1), key, limit, d)
    ensures CountIn(Accepted(Reordered(key, limit, d, limit - 1), key), 0, WINDOW_MS - d)
      == 2 * limit - if d == 0 then 0 else 1
  {
    ReorderedIsAdmissible(key, limit, d, limit - 1);
    var scores := ReorderedIsAccepted(key, limit, d, limit - 1);
    hide Reordered, Admissible, Accepted, State, CountIn;
    var high := WINDOW_MS - d;
    NothingToCount(0, high);
    CountCopies([], limit, 0, 0, high);
    assert [] + Copies(limit, 0) == Copies(limit, 0);
    CountAppend(Copies(limit, 0), WINDOW_MS, 0, high);
    CountCopies(Copies(limit, 0) + [WINDOW_MS], limit - 1, WINDOW_MS - d, 0, high);
  }

  /** The slack of d is exact: a window is within the limit in every such history if and only if it leaves out d. */
  lemma WindowBoundIff(width: int, d: nat)
    requires d < WINDOW_MS
    ensures BoundHolds(width, d) <==> width <= WINDOW_MS - 1 - d
  {
    if width <= WINDOW_MS - 1 - d {
      forall calls, key, limit: nat | Admissible(calls, key, limit, d)
        ensures WindowBound(Accepted(calls, key), width, limit)
      {
        ScriptWindowBound(calls, key, limit, d);
      }
    } else {
      ReorderingExceedsLimit("k", 2, d);
      hide Reordered, Admissible, Accepted, CountIn;
      assert !WindowBound(Accepted(Reordered("k", 2, d, 1), "k"), width, 2);
    }
  }

  // ---------------------------------------------------------------- above the cap

  lemma {:induction false} DroppedShrinks(s: seq<int>, cutoff: int)
    ensures |Dropped(s, cutoff)| <= |s|
  {
    if s != [] && s[0] < cutoff {
      DroppedShrinks(s[1..], cutoff);
    }
  }

  lemma {:induction false} StoredIsCapped(calls: seq<Call>, key: string)
    ensures key in State(calls) ==> |State(calls)[key].scores| <= MAX_ENTRIES
  {
    if calls != [] {
      var past, call := calls[..|calls| - 1], calls[|calls| - 1];
      StoredIsCapped(past, key);
      DroppedShrinks(Visible(State(past), key, call.ranAt), call.now - WINDOW_MS + 1);
    }
  }

  /** A limit above the cap is never enforced: in every history every request is accepted. */
  lemma LimitAboveCapAcceptsEverything(calls: seq<Call>, key: string, limit: int, now: int, ranAt: int)
    requires limit > MAX_ENTRIES
    ensures ScriptAllows(State(calls), key, limit, now, ranAt)
  {
    StoredIsCapped(calls, key);
    DroppedShrinks(Visible(State(calls), key, ranAt), now - WINDOW_MS + 1);
  }

  // ---------------------------------------------------------------- the limiter with its fallback

  /**
   * One step on one store: a script on the server, whose answer may or may not reach the caller, or a
   * call on the fallback. Concurrent requests interleave: fallbacks need not come in the order in
   * which their scripts ran. Script readings are in milliseconds, those of the fallback in nanoseconds.
   */
  datatype Act = Server(call: Call, answered: bool) | Fallback(mem: Memory.Call)

  function Millis(nanos: int): int {
    nanos / NANOS_PER_MILLI
  }

  function Perform(db: Redis, requests: Memory.Requests, act: Act): (Redis, Memory.Requests) {
    match act
    case Server(call, _) => (After(db, call), requests)
    case Fallback(mem) => (db, Memory.After(requests, mem))
  }

  function PerformAll(db: Redis, requests: Memory.Requests, acts: seq<Act>): (Redis, Memory.Requests) {
    if acts == [] then (db, requests)
    else
      var before := PerformAll(db, requests, acts[..|acts| - 1]);
      Perform(before.0, before.1, acts[|acts| - 1])
  }

  lemma PerformOne(db: Redis, requests: Memory.Requests, act: Act)
    ensures PerformAll(db, requests, [act]) == Perform(db, requests, act)
  {
    assert [act][..0] == [];
  }

  lemma PerformLast(db: Redis, requests: Memory.Requests, past: seq<Act>, act: Act)
    ensures var before := PerformAll(db, requests, past);
      PerformAll(db, requests, past + [act]) == Perform(before.0, before.1, act)
  {
    assert (past + [act])[..|past|] == past;
  }

  /** How one round trip to Redis goes: a lost reply means that the script ran and the caller does not know. */
  datatype Trip = Answered | RequestLost | ReplyLost

  /** One request is one act or two. The fallback reads its own clock, after the failed round trip. */
  function ActsOf(key: string, limit: int, now: int, ranAt: int, fallbackNow: int, trip: Trip): seq<Act> {
    (if trip.RequestLost? then [] else [Server(Script(key, limit, Millis(now), ranAt), trip.Answered?)])
    + (if trip.Answered? then [] else [Fallback(Memory.Check(key, limit, fallbackNow))])
  }

  lemma PerformActsOf(db: Redis, requests: Memory.Requests, key: string, limit: int, now: int, ranAt: int,
                      fallbackNow: int, trip: Trip)
    ensures PerformAll(db, requests, ActsOf(key, limit, now, ranAt, fallbackNow, trip)) ==
      (if trip.RequestLost? then db else AfterScript(db, key, limit, Millis(now), ranAt),
       if trip.Answered? then requests else Memory.AfterCheck(requests, key, limit, fallbackNow))
  {
    var script, check := Script(key, limit, Millis(now), ranAt), Memory.Check(key, limit, fallbackNow);
    var acts := ActsOf(key, limit, now, ranAt, fallbackNow, trip);
    PerformOne(db, requests, Server(script, trip.Answered?));
    PerformOne(db, requests, Fallback(check));
    hide PerformAll, AfterScript, Memory.AfterCheck;
    if trip.ReplyLost? {
      PerformLast(db, requests, [Server(script, false)], Fallback(check));
      assert acts == [Server(script, false)] + [Fallback(check)];
    } else if trip.Answered? {
      assert acts == [Server(script, true)];
    } else {
      assert acts == [Fallback(check)];
    }
  }

  class RedisLimiter {
    var db: Redis
    const fallback: Memory.MemoryLimiter

    constructor ()
      ensures db == map[] && fresh(fallback) && fallback.requests == map[]
    {
      db := map[];
      fallback := new Memory.MemoryLimiter();
    }

    method CheckAndConsume(key: string, limit: int, now: int, ranAt: int, fallbackNow: int, trip: Trip)
      returns (r: Memory.RateResult)
      modifies this, fallback
      ensures (db, fallback.requests) ==
        PerformAll(old(db), old(fallback.requests), ActsOf(key, limit, now, ranAt, fallbackNow, trip))
      ensures r.allowed <==>
        if trip.Answered? then ScriptAllows(old(db), key, limit, Millis(now), ranAt)
        else Memory.Allows(old(fallback.requests), key, limit, fallbackNow)
      ensures trip.Answered? && r.allowed ==>
        r.remaining == Memory.Remaining(limit, |Live(old(db), key, Millis(now), ranAt)| + 1)
      ensures !trip.Answered? && r.allowed ==> r.remaining == Memory.Remaining(limit, |fallback.requests[key]|)
      ensures !r.allowed ==> r.remaining == 0
      ensures r.resetAt == (if trip.Answered? then now else fallbackNow) + Memory.WINDOW
    {
      PerformActsOf(db, fallback.requests, key, limit, now, ranAt, fallbackNow, trip);
      hide PerformAll, ActsOf;
      var allowed := false;
      var count := 0;
      if !trip.RequestLost? {
        var live := Live(db, key, Millis(now), ranAt);
        count := |live|;
        if count >= limit {
          db := Stored(db, key, live);
        } else {
          db := db[key := ZKey(Capped(ZAdd(live, Millis(now))), ranAt + WINDOW_MS)];
          count := count + 1;
          allowed := true;
        }
      }
      if !trip.Answered? {
        r := fallback.CheckAndConsume(key, limit, fallbackNow);
        return;
      }
      var remaining := limit - count;
      if remaining < 0 {
        remaining := 0;
      }
      return Memory.RateResult(allowed, remaining, now + Memory.WINDOW);
    }
  }

  /** The scripts of a history, in the order in which the server ran them. */
  function OnServer(acts: seq<Act>): seq<Call> {
    if acts == [] then []
    else
      var past, act := acts[..|acts| - 1], acts[|acts| - 1];
      OnServer(past) + if act.Server? then [act.call] else []
  }

  /** The fallback's calls, in the order in which they took its mutex. */
  function InMemory(acts: seq<Act>): seq<Memory.Call> {
    if acts == [] then []
    else
      var past, act := acts[..|acts| - 1], acts[|acts| - 1];
      InMemory(past) + if act.Fallback? then [act.mem] else []
  }

  /** Performed from empty stores, a history leaves each store as its own calls do. */
  lemma {:induction false} PerformedStores(acts: seq<Act>)
    ensures PerformAll(map[], map[], acts) == (State(OnServer(acts)), Memory.State(InMemory(acts)))
  {
    hide After, Memory.After;
    if acts != [] {
      var past, act := acts[..|acts| - 1], acts[|acts| - 1];
      PerformedStores(past);
      if act.Server? {
        assert (OnServer(past) + [act.call])[..|OnServer(past)|] == OnServer(past) && InMemory(acts) == InMemory(past);
      } else {
        assert (InMemory(past) + [act.mem])[..|InMemory(past)|] == InMemory(past) && OnServer(acts) == OnServer(past);
      }
    }
  }

  predicate AllowedBy(past: seq<Act>, key: string, act: Act) {
    match act
    case Server(call, answered) => answered && AcceptsAt(State(OnServer(past)), key, call)
    case Fallback(mem) => Memory.AcceptsAt(Memory.State(InMemory(past)), key, mem)
  }

  /** The stamps, in milliseconds, of the requests that callers were told are allowed. */
  function Allowed(acts: seq<Act>, key: string): seq<int> {
    if acts == [] then []
    else
      var past, act := acts[..|acts| - 1], acts[|acts| - 1];
      Allowed(past, key) +
      if AllowedBy(past, key, act) then [if act.Server? then act.call.now else Millis(act.mem.now)] else []
  }

  /** The part of them that the server answered. */
  function FromServer(acts: seq<Act>, key: string): seq<int> {
    if acts == [] then []
    else
      var past, act := acts[..|acts| - 1], acts[|acts| - 1];
      FromServer(past, key) + if act.Server? && AllowedBy(past, key, act) then [act.call.now] else []
  }

  /** The histories of the two bounds: each store in its own order, with one limit for the key. */
  ghost predicate Orderly(acts: seq<Act>, key: string, limit: nat, d: nat) {
    && Admissible(OnServer(acts), key, limit, d)
    && Memory.InClockOrder(InMemory(acts)) && Memory.ConstantLimit(InMemory(acts), key, limit)
  }

  function LowNanos(low: int): int {
    low * NANOS_PER_MILLI
  }

  function HighNanos(high: int): int {
    high * NANOS_PER_MILLI + (NANOS_PER_MILLI - 1)
  }

  lemma MillisInWindow(nanos: int, low: int, high: int)
    ensures low <= Millis(nanos) <= high <==> LowNanos(low) <= nanos <= HighNanos(high)
  {
  }

  lemma LastAcceptedInMemory(calls: seq<Memory.Call>, call: Memory.Call, key: string)
    ensures Memory.Accepted(calls + [call], key)
      == Memory.Accepted(calls, key) + if Memory.AcceptsAt(Memory.State(calls), key, call) then [call.now] else []
  {
    assert (calls + [call])[..|calls|] == calls;
  }

  /** How one more act changes the projections of a history. */
  lemma LastAct(past: seq<Act>, act: Act, key: string)
    ensures OnServer(past + [act]) == OnServer(past) + if act.Server? then [act.call] else []
    ensures InMemory(past + [act]) == InMemory(past) + if act.Fallback? then [act.mem] else []
    ensures FromServer(past + [act], key)
      == FromServer(past, key) + if act.Server? && AllowedBy(past, key, act) then [act.call.now] else []
    ensures Allowed(past + [act], key) == Allowed(past, key) +
      if AllowedBy(past, key, act) then [if act.Server? then act.call.now else Millis(act.mem.now)] else []
  {
    hide AllowedBy;
    assert (past + [act])[..|past|] == past;
  }

  /** Every allowed request was answered by the server or accepted by the fallback, and by one of them only. */
  lemma {:induction false} AllowedSplits(acts: seq<Act>, key: string, low: int, high: int)
    ensures CountIn(Allowed(acts, key), low, high) == CountIn(FromServer(acts, key), low, high)
      + CountIn(Memory.Accepted(InMemory(acts), key), LowNanos(low), HighNanos(high))
  {
    if acts != [] {
      var past, act := acts[..|acts| - 1], acts[|acts| - 1];
      AllowedSplits(past, key, low, high);
      assert acts == past + [act];
      LastAct(past, act, key);
      hide Allowed, FromServer, InMemory, OnServer, Memory.Accepted, CountIn;
      if act.Server? {
        assert InMemory(acts) == InMemory(past);
        CountAppend(Allowed(past, key), act.call.now, low, high);
        CountAppend(FromServer(past, key), act.call.now, low, high);
        assert !AllowedBy(past, key, act) ==> Allowed(acts, key) == Allowed(past, key);
        assert !AllowedBy(past, key, act) ==> FromServer(acts, key) == FromServer(past, key);
      } else {
        assert FromServer(acts, key) == FromServer(past, key);
        LastAcceptedInMemory(InMemory(past), act.mem, key);
        MillisInWindow(act.mem.now, low, high);
        CountAppend(Allowed(past, key), Millis(act.mem.now), low, high);
        CountAppend(Memory.Accepted(InMemory(past), key), act.mem.now, LowNanos(low), HighNanos(high));
        if !AllowedBy(past, key, act) {
          assert Allowed(acts, key) == Allowed(past, key);
          assert Memory.Accepted(InMemory(acts), key) == Memory.Accepted(InMemory(past), key);
        }
      }
    }
  }

  /** The scripts for the key that reached their callers with an answer, all of them or none. */
  ghost predicate AllAnswers(acts: seq<Act>, key: string, answered: bool) {
    forall i :: 0 <= i < |acts| && acts[i].Server? && acts[i].call.Script? && acts[i].call.key == key ==>
      acts[i].answered == answered
  }

  /** Answers are among the server's records: all of them if every script was answered, none if none was. */
  lemma {:induction false} AnswersAreRecorded(acts: seq<Act>, key: string, low: int, high: int)
    ensures CountIn(FromServer(acts, key), low, high) <= CountIn(Accepted(OnServer(acts), key), low, high)
    ensures AllAnswers(acts, key, true) ==> FromServer(acts, key) == Accepted(OnServer(acts), key)
    ensures AllAnswers(acts, key, false) ==> FromServer(acts, key) == []
  {
    if acts != [] {
      var past, act := acts[..|acts| - 1], acts[|acts| - 1];
      AnswersAreRecorded(past, key, low, high);
      assert acts == past + [act];
      LastAct(past, act, key);
      hide Allowed, FromServer, InMemory, OnServer, Accepted, CountIn;
      if act.Server? {
        LastAccepted(OnServer(past), act.call, key);
        CountAppend(FromServer(past, key), act.call.now, low, high);
        CountAppend(Accepted(OnServer(past), key), act.call.now, low, high);
        if !AllowedBy(past, key, act) {
          assert FromServer(acts, key) == FromServer(past, key);
        }
        if !AcceptsAt(State(OnServer(past)), key, act.call) {
          assert Accepted(OnServer(acts), key) == Accepted(OnServer(past), key);
        }
      } else {
        assert OnServer(acts) == OnServer(past) && FromServer(acts, key) == FromServer(past, key);
      }
    }
  }

  /** Every allowed request was recorded by Redis or by the fallback. */
  lemma AcceptedIsRecorded(acts: seq<Act>, key: string, low: int, high: int)
    ensures CountIn(Allowed(acts, key), low, high)
      <= CountIn(Accepted(OnServer(acts), key), low, high)
       + CountIn(Memory.Accepted(InMemory(acts), key), LowNanos(low), HighNanos(high))
  {
    AllowedSplits(acts, key, low, high);
    AnswersAreRecorded(acts, key, low, high);
  }

  /**
   * Under every pattern of Redis failures and every interleaving of scripts and fallbacks at most twice
   * the limit is allowed per window of 60 seconds less d, half open, where scripts run at most d
   * milliseconds after their readings.
   */
  lemma AtMostTwiceTheLimit(acts: seq<Act>, key: string, limit: nat, d: nat)
    requires Orderly(acts, key, limit, d)
    ensures WindowBound(Allowed(acts, key), WINDOW_MS - 1 - d, 2 * limit)
  {
    ScriptWindowBound(OnServer(acts), key, limit, d);
    Memory.AnyWindowBound(InMemory(acts), key, limit);
    forall low, high | high - low <= WINDOW_MS - 1 - d
      ensures CountIn(Allowed(acts, key), low, high) <= 2 * limit
    {
      AcceptedIsRecorded(acts, key, low, high);
      assert HighNanos(high) - LowNanos(low) <= Memory.WINDOW;
      assert CountIn(Accepted(OnServer(acts), key), low, high) <= limit;
    }
  }

  ghost predicate NoChecks(calls: seq<Memory.Call>, key: string) {
    forall i :: 0 <= i < |calls| && calls[i].Check? ==> calls[i].key != key
  }

  lemma {:induction false} NoChecksNoneAccepted(calls: seq<Memory.Call>, key: string)
    requires NoChecks(calls, key)
    ensures Memory.Accepted(calls, key) == []
  {
    if calls != [] {
      NoChecksNoneAccepted(calls[..|calls| - 1], key);
    }
  }

  /** The limit itself is kept while no request for the key falls back, and while none is answered by Redis. */
  lemma OneSourceKeepsLimit(acts: seq<Act>, key: string, limit: nat, d: nat)
    requires Orderly(acts, key, limit, d)
    ensures NoChecks(InMemory(acts), key) ==> WindowBound(Allowed(acts, key), WINDOW_MS - 1 - d, limit)
    ensures AllAnswers(acts, key, false) ==> WindowBound(Allowed(acts, key), WINDOW_MS - 1, limit)
  {
    ScriptWindowBound(OnServer(acts), key, limit, d);
    Memory.AnyWindowBound(InMemory(acts), key, limit);
    hide Allowed, FromServer, Accepted, Memory.Accepted, Orderly;
    forall low, high
      ensures NoChecks(InMemory(acts), key) && high - low <= WINDOW_MS - 1 - d ==>
        CountIn(Allowed(acts, key), low, high) <= limit
      ensures AllAnswers(acts, key, false) && high - low <= WINDOW_MS - 1 ==>
        CountIn(Allowed(acts, key), low, high) <= limit
    {
      AllowedSplits(acts, key, low, high);
      AnswersAreRecorded(acts, key, low, high);
      NothingToCount(low, high);
      NothingToCount(LowNanos(low), HighNanos(high));
      if NoChecks(InMemory(acts), key) {
        NoChecksNoneAccepted(InMemory(acts), key);
      }
      if high - low <= WINDOW_MS - 1 {
        assert HighNanos(high) - LowNanos(low) <= Memory.WINDOW;
      }
    }
  }

  // ---------------------------------------------------------------- histories that reach the bounds

  function Served(calls: seq<Call>, answered: bool): seq<Act> {
    seq(|calls|, i requires 0 <= i < |calls| => Server(calls[i], answered))
  }

  function FellBack(calls: seq<Memory.Call>): seq<Act> {
    seq(|calls|, i requires 0 <= i < |calls| => Fallback(calls[i]))
  }

  lemma {:induction false} AppendServed(acts: seq<Act>, calls: seq<Call>, answered: bool, key: string)
    ensures OnServer(acts + Served(calls, answered)) == OnServer(acts) + calls
    ensures InMemory(acts + Served(calls, answered)) == InMemory(acts)
    ensures !answered ==> FromServer(acts + Served(calls, answered), key) == FromServer(acts, key)
    decreases |calls|
  {
    hide OnServer, InMemory, FromServer, Allowed;
    if calls == [] {
      assert acts + Served(calls, answered) == acts;
    } else {
      var init, last := calls[..|calls| - 1], calls[|calls| - 1];
      AppendServed(acts, init, answered, key);
      assert acts + Served(calls, answered) == acts + Served(init, answered) + [Server(last, answered)];
      LastAct(acts + Served(init, answered), Server(last, answered), key);
      assert OnServer(acts) + init + [last] == OnServer(acts) + calls;
    }
  }

  lemma {:induction false} AppendFellBack(acts: seq<Act>, calls: seq<Memory.Call>, key: string)
    ensures OnServer(acts + FellBack(calls)) == OnServer(acts)
    ensures InMemory(acts + FellBack(calls)) == InMemory(acts) + calls
    ensures FromServer(acts + FellBack(calls), key) == FromServer(acts, key)
    decreases |calls|
  {
    hide OnServer, InMemory, FromServer, Allowed;
    if calls == [] {
      assert acts + FellBack(calls) == acts;
    } else {
      var init, last := calls[..|calls| - 1], calls[|calls| - 1];
      AppendFellBack(acts, init, key);
      assert acts + FellBack(calls) == acts + FellBack(init) + [Fallback(last)];
      LastAct(acts + FellBack(init), Fallback(last), key);
      assert InMemory(acts) + init + [last] == InMemory(acts) + calls;
    }
  }

  lemma NoActs(key: string)
    ensures OnServer([]) == [] && InMemory([]) == [] && FromServer([], key) == []
  {
  }

  lemma ServedAlone(calls: seq<Call>, key: string)
    ensures OnServer(Served(calls, true)) == calls && InMemory(Served(calls, true)) == []
    ensures FromServer(Served(calls, true), key) == Accepted(calls, key)
  {
    NoActs(key);
    AppendServed([], calls, true, key);
    AnswersAreRecorded(Served(calls, true), key, 0, 0);
    hide OnServer, InMemory, FromServer, Accepted;
    assert [] + Served(calls, true) == Served(calls, true) && [] + calls == calls;
  }

  lemma CountBurst(n: nat, low: int, high: int)
    requires low <= 0 <= high
    ensures CountIn(Copies(n, 0), low, high) == n
  {
    NothingToCount(low, high);
    CountCopies([], n, 0, low, high);
    assert [] + Copies(n, 0) == Copies(n, 0);
  }

  lemma RoomInMemory(calls: seq<Memory.Call>, key: string, limit: nat, k: nat)
    requires k < limit && Memory.InClockOrder(calls) && (calls != [] ==> calls[|calls| - 1].now == 0)
    requires Memory.Accepted(calls, key) == Copies(k, 0)
    ensures Memory.Allows(Memory.State(calls), key, limit, 0)
  {
    hide Memory.Accepted, Memory.State, Memory.Allows, CountIn, Copies;
    Memory.DecisionsMatchFullHistory(calls, key, limit, 0);
    CountBurst(k, 0 - Memory.WINDOW, 0);
  }

  lemma NothingInMemory(key: string)
    ensures Memory.Accepted([], key) == []
  {
  }

  /** Up to the limit, the fallback allows requests at one instant too. */
  lemma {:induction false} FallbackBurst(key: string, limit: nat, k: nat)
    requires k <= limit
    ensures Memory.Accepted(Copies(k, Memory.Check(key, limit, 0)), key) == Copies(k, 0)
    ensures Memory.InClockOrder(Copies(k, Memory.Check(key, limit, 0)))
    ensures Memory.ConstantLimit(Copies(k, Memory.Check(key, limit, 0)), key, limit)
  {
    hide Memory.Accepted, Memory.State, Memory.Allows;
    var check := Memory.Check(key, limit, 0);
    if k == 0 {
      NothingInMemory(key);
    } else {
      FallbackBurst(key, limit, k - 1);
      RoomInMemory(Copies(k - 1, check), key, limit, k - 1);
      LastAcceptedInMemory(Copies(k - 1, check), check, key);
      assert Copies(k, check) == Copies(k - 1, check) + [check] && Copies(k, 0) == Copies(k - 1, 0) + [0];
    }
  }

  /** L answered at one instant, `lost` more whose scripts run without an answer, and L that fall back. */
  function Doubled(key: string, limit: nat, lost: nat): seq<Act> {
    Served(Copies(limit, Script(key, limit, 0, 0)), true) + Served(Copies(lost, Script(key, limit, 0, 0)), false)
    + FellBack(Copies(limit, Memory.Check(key, limit, 0)))
  }

  lemma DoubledProjects(key: string, limit: nat, lost: nat)
    ensures OnServer(Doubled(key, limit, lost)) == Copies(limit + lost, Script(key, limit, 0, 0))
    ensures InMemory(Doubled(key, limit, lost)) == Copies(limit, Memory.Check(key, limit, 0))
    ensures FromServer(Doubled(key, limit, lost), key) == Accepted(Copies(limit, Script(key, limit, 0, 0)), key)
  {
    hide OnServer, InMemory, FromServer, Allowed, Accepted, Served, FellBack;
    var call, check := Script(key, limit, 0, 0), Memory.Check(key, limit, 0);
    assert Copies(limit, call) + Copies(lost, call) == Copies(limit + lost, call);
    hide Copies;
    ServedAlone(Copies(limit, call), key);
    var answered := Served(Copies(limit, call), true);
    AppendServed(answered, Copies(lost, call), false, key);
    AppendFellBack(answered + Served(Copies(lost, call), false), Copies(limit, check), key);
    assert [] + Copies(limit, check) == Copies(limit, check);
  }

  lemma InstantIsAdmissible(key: string, limit: nat, n: nat)
    requires limit <= MAX_ENTRIES
    ensures Admissible(Copies(n, Script(key, limit, 0, 0)), key, limit, 0)
  {
  }

  /** For every limit, twice the limit is reached at one instant, whether or not the lost scripts ran. */
  lemma TwiceTheLimitIsReached(key: string, limit: nat, lost: nat)
    requires limit <= MAX_ENTRIES
    ensures Orderly(Doubled(key, limit, lost), key, limit, 0)
    ensures CountIn(Allowed(Doubled(key, limit, lost), key), 0, 0) == 2 * limit
  {
    hide Doubled, OnServer, InMemory, FromServer, Allowed, Accepted, Memory.Accepted, CountIn, Admissible,
      Memory.InClockOrder, Memory.ConstantLimit, Copies;
    DoubledProjects(key, limit, lost);
    InstantIsAdmissible(key, limit, limit + lost);
    BurstIsAccepted(key, limit, limit);
    FallbackBurst(key, limit, limit);
    AllowedSplits(Doubled(key, limit, lost), key, 0, 0);
    CountBurst(limit, 0, 0);
    CountBurst(limit, LowNanos(0), HighNanos(0));
  }

  /** The late readings, with a fallback burst right after the first burst. */
  function Tripled(key: string, limit: nat, d: nat): seq<Act>
    requires limit >= 1
  {
    Served(Copies(limit, Script(key, limit, 0, 0)), true) + FellBack(Copies(limit, Memory.Check(key, limit, 0)))
    + Served([Script(key, limit, WINDOW_MS, WINDOW_MS)]
             + Copies(limit - 1, Script(key, limit, WINDOW_MS - d, WINDOW_MS)), true)
  }

  lemma TripledProjects(key: string, limit: nat, d: nat)
    requires limit >= 1
    ensures OnServer(Tripled(key, limit, d)) == Reordered(key, limit, d, limit - 1)
    ensures InMemory(Tripled(key, limit, d)) == Copies(limit, Memory.Check(key, limit, 0))
  {
    hide OnServer, InMemory, FromServer, Accepted, Served, FellBack, Copies;
    var first, checks := Copies(limit, Script(key, limit, 0, 0)), Copies(limit, Memory.Check(key, limit, 0));
    var next := [Script(key, limit, WINDOW_MS, WINDOW_MS)];
    var late := Copies(limit - 1, Script(key, limit, WINDOW_MS - d, WINDOW_MS));
    ServedAlone(first, key);
    AppendFellBack(Served(first, true), checks, key);
    AppendServed(Served(first, true) + FellBack(checks), next + late, true, key);
    assert [] + checks == checks && first + (next + late) == first + next + late;
  }

  lemma TripledIsAnswered(key: string, limit: nat, d: nat)
    requires limit >= 1
    ensures AllAnswers(Tripled(key, limit, d), key, true)
  {
  }

  /** With scripts d late, failures let 3L - 1 requests into a window of 60 seconds less d. */
  lemma ReorderingExceedsTwiceTheLimit(key: string, limit: nat, d: nat)
    requires 1 <= limit <= MAX_ENTRIES && d < WINDOW_MS
    ensures Orderly(Tripled(key, limit, d), key, limit, d)
    ensures CountIn(Allowed(Tripled(key, limit, d), key), 0, WINDOW_MS - d)
      == 3 * limit - if d == 0 then 0 else 1
  {
    hide Tripled, Reordered, OnServer, InMemory, FromServer, Allowed, Accepted, Memory.Accepted, CountIn, Admissible,
      Memory.InClockOrder, Memory.ConstantLimit, AllAnswers, Copies;
    TripledProjects(key, limit, d);
    TripledIsAnswered(key, limit, d);
    ReorderingExceedsLimit(key, limit, d);
    FallbackBurst(key, limit, limit);
    AllowedSplits(Tripled(key, limit, d), key, 0, WINDOW_MS - d);
    AnswersAreRecorded(Tripled(key, limit, d), key, 0, WINDOW_MS - d);
    CountBurst(limit, LowNanos(0), HighNanos(WINDOW_MS - d));
  }

  ghost predicate TwiceHolds(width: int, d: nat) {
    forall acts, key, limit: nat :: Orderly(acts, key, limit, d) ==> WindowBound(Allowed(acts, key), width, 2 * limit)
  }

  /** The slack is exact for twice the limit as well. */
  lemma TwiceTheLimitIff(width: int, d: nat)
    requires d < WINDOW_MS
    ensures TwiceHolds(width, d) <==> width <= WINDOW_MS - 1 - d
  {
    if width <= WINDOW_MS - 1 - d {
      forall acts, key, limit: nat | Orderly(acts, key, limit, d)
        ensures WindowBound(Allowed(acts, key), width, 2 * limit)
      {
        AtMostTwiceTheLimit(acts, key, limit, d);
      }
    } else {
      ReorderingExceedsTwiceTheLimit("k", 2, d);
      hide Tripled, Orderly, Allowed, CountIn;
      assert !WindowBound(Allowed(Tripled("k", 2, d), "k"), width, 4);
    }
  }
}
