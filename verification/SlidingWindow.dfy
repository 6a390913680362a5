/** Counting time stamps in sliding windows: what both rate limiters keep, and what they are measured by. */
module SlidingWindow {

  ghost predicate Sorted(s: seq<int>) {
    forall i, j :: 0 <= i < j < |s| ==> s[i] <= s[j]
  }

  ghost predicate UpTo(s: seq<int>, last: int) {
    forall i :: 0 <= i < |s| ==> s[i] <= last
  }

  /** The entries left after removing the leading ones before `cutoff`. */
  function Dropped(s: seq<int>, cutoff: int): seq<int> {
    if s != [] && s[0] < cutoff then Dropped(s[1..], cutoff) else s
  }

  /** How many stamps lie in the closed interval. */
  function CountIn(s: seq<int>, low: int, high: int): nat {
    if s == [] then 0
    else CountIn(s[..|s| - 1], low, high) + if low <= s[|s| - 1] <= high then 1 else 0
  }

  lemma {:induction false} DroppedTwice(s: seq<int>, first: int, second: int)
    requires first <= second
    ensures Dropped(Dropped(s, first), second) == Dropped(s, second)
  {
    if s != [] && s[0] < first {
      DroppedTwice(s[1..], first, second);
    }
  }

  lemma {:induction false} DroppedAppend(s: seq<int>, x: int, cutoff: int)
    requires cutoff <= x
    ensures Dropped(s + [x], cutoff) == Dropped(s, cutoff) + [x]
  {
    if s != [] && s[0] < cutoff {
      assert (s + [x])[1..] == s[1..] + [x];
      DroppedAppend(s[1..], x, cutoff);
    }
  }

  lemma {:induction false} CountAppend(s: seq<int>, x: int, low: int, high: int)
    ensures CountIn(s + [x], low, high) == CountIn(s, low, high) + if low <= x <= high then 1 else 0
  {
    assert (s + [x])[..|s|] == s;
  }

  lemma {:induction false} CountPrepend(x: int, s: seq<int>, low: int, high: int)
    ensures CountIn([x] + s, low, high) == CountIn(s, low, high) + if low <= x <= high then 1 else 0
  {
    if s == [] {
      assert [x] + s == [] + [x];
      CountAppend([], x, low, high);
    } else {
      var front := s[..|s| - 1];
      assert [x] + s == ([x] + front) + [s[|s| - 1]];
      CountAppend([x] + front, s[|s| - 1], low, high);
      CountPrepend(x, front, low, high);
    }
  }

  /** On sorted stamps, the entries that survive trimming are exactly those inside the window. */
  lemma {:induction false} LiveIsWindow(s: seq<int>, low: int, high: int)
    requires Sorted(s) && UpTo(s, high)
    ensures |Dropped(s, low)| == CountIn(s, low, high)
  {
    if s != [] {
      assert s == [s[0]] + s[1..];
      CountPrepend(s[0], s[1..], low, high);
      LiveIsWindow(s[1..], low, high);
      if low <= s[0] {
        assert s[1..] != [] ==> low <= s[1];
      }
    }
  }

  lemma {:induction false} WiderWindowCountsMore(s: seq<int>, low: int, high: int, low': int, high': int)
    requires low' <= low && high <= high'
    ensures CountIn(s, low, high) <= CountIn(s, low', high')
  {
    if s != [] {
      WiderWindowCountsMore(s[..|s| - 1], low, high, low', high');
    }
  }

  /** Beyond the last stamp a window has nothing more to count. */
  lemma {:induction false} CountCapped(s: seq<int>, low: int, high: int, last: int)
    requires UpTo(s, last) && last <= high
    ensures CountIn(s, low, high) == CountIn(s, low, last)
  {
    if s != [] {
      CountCapped(s[..|s| - 1], low, high, last);
    }
  }

  lemma {:induction false} CountAtMostLength(s: seq<int>, low: int, high: int)
    ensures CountIn(s, low, high) <= |s|
    ensures (forall i :: 0 <= i < |s| ==> low <= s[i] <= high) ==> CountIn(s, low, high) == |s|
  {
    if s != [] {
      CountAtMostLength(s[..|s| - 1], low, high);
    }
  }

  lemma {:induction false} CountAbove(s: seq<int>, low: int, high: int, last: int)
    requires UpTo(s, last) && last < low
    ensures CountIn(s, low, high) == 0
  {
    if s != [] {
      CountAbove(s[..|s| - 1], low, high, last);
    }
  }

  /** Trimming sorted stamps leaves sorted stamps, all past the cutoff, and every window past the cutoff intact. */
  lemma {:induction false} DroppedWindows(s: seq<int>, cutoff: int)
    requires Sorted(s)
    ensures Sorted(Dropped(s, cutoff)) && forall i :: 0 <= i < |Dropped(s, cutoff)| ==> cutoff <= Dropped(s, cutoff)[i]
    ensures forall x :: x in Dropped(s, cutoff) ==> x in s
    ensures forall low, high :: CountIn(Dropped(s, cutoff), low, high) <= CountIn(s, low, high)
    ensures forall low, high :: cutoff <= low ==> CountIn(Dropped(s, cutoff), low, high) == CountIn(s, low, high)
  {
    if s != [] && s[0] < cutoff {
      DroppedWindows(s[1..], cutoff);
      assert s == [s[0]] + s[1..];
      forall low, high
        ensures CountIn(s, low, high) == CountIn(s[1..], low, high) + if low <= s[0] <= high then 1 else 0
      {
        CountPrepend(s[0], s[1..], low, high);
      }
    }
  }

  /** No interval of at most that width holds more stamps than the bound. */
  ghost predicate WindowBound(s: seq<int>, width: int, bound: int) {
    forall low, high :: high - low <= width ==> CountIn(s, low, high) <= bound
  }

  /** Accepting a stamp only when the window that ends at it has room keeps every window within the bound. */
  lemma AcceptKeepsBound(s: seq<int>, now: int, width: int, bound: int)
    requires WindowBound(s, width, bound) && UpTo(s, now)
    requires CountIn(s, now - width, now) < bound
    ensures WindowBound(s + [now], width, bound)
  {
    forall low, high | high - low <= width
      ensures CountIn(s + [now], low, high) <= bound
    {
      CountAppend(s, now, low, high);
      assert CountIn(s, low, high) <= bound;
      if low <= now <= high {
        CountCapped(s, low, high, now);
        WiderWindowCountsMore(s, low, now, now - width, now);
      }
    }
  }
}
