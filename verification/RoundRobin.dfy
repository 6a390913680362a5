/** Weighted round robin: the expanded slot list, the picker, and the fairness of any run of picks. */
module RoundRobinBalancing {
  import opened Options

  datatype Target = Target(id: string, url: string, weight: int)

  /** The counter is an unsigned 64-bit integer. */
  const WRAP: int := 0x1_0000_0000_0000_0000

  predicate AllEqual(pool: seq<Target>) {
    forall i :: 0 <= i < |pool| ==> pool[i].weight == pool[0].weight
  }

  function Clamp(w: int): nat {
    if w < 1 then 1 else if w > 100 then 100 else w
  }

  /** How many slots of the expanded list a pool position gets. */
  function Share(pool: seq<Target>, j: nat): nat
    requires j < |pool|
  {
    if AllEqual(pool) then 1 else Clamp(pool[j].weight)
  }

  function Repeat(j: nat, n: nat): seq<nat> {
    seq(n, _ => j)
  }

  /** The slots of the first k pool positions. */
  function Slots(pool: seq<Target>, k: nat): (s: seq<nat>)
    requires k <= |pool|
    ensures forall i :: 0 <= i < |s| ==> s[i] < k
    ensures |s| >= k
  {
    if k == 0 then [] else Slots(pool, k - 1) + Repeat(k - 1, Share(pool, k - 1))
  }

  function Layout(pool: seq<Target>): (s: seq<nat>)
    ensures forall i :: 0 <= i < |s| ==> s[i] < |pool|
    ensures |s| >= |pool|
  {
    Slots(pool, |pool|)
  }

  function At(pool: seq<Target>, slots: seq<nat>): seq<Target>
    requires forall i :: 0 <= i < |slots| ==> slots[i] < |pool|
  {
    seq(|slots|, i requires 0 <= i < |slots| => pool[slots[i]])
  }

  method ExpandByWeight(pool: seq<Target>) returns (expanded: seq<Target>)
    requires pool != []
    ensures expanded == At(pool, Layout(pool))
  {
    var allEqual := true;
    var k := 0;
    while k < |pool|
      invariant 0 <= k <= |pool|
      invariant allEqual ==> forall i :: 0 <= i < k ==> pool[i].weight == pool[0].weight
      invariant !allEqual ==> !AllEqual(pool)
    {
      if pool[k].weight != pool[0].weight {
        allEqual := false;
        break;
      }
      k := k + 1;
    }
    if allEqual {
      EqualWeightsLayout(pool, |pool|);
      assert pool == At(pool, Layout(pool));
      return pool;
    }
    expanded := [];
    k := 0;
    while k < |pool|
      invariant 0 <= k <= |pool|
      invariant expanded == At(pool, Slots(pool, k))
    {
      var w := pool[k].weight;
      if w < 1 {
        w := 1;
      }
      if w > 100 {
        w := 100;
      }
      var i := 0;
      while i < w
        invariant 0 <= i <= w
        invariant expanded == At(pool, Slots(pool, k) + Repeat(k, i))
      {
        expanded := expanded + [pool[k]];
        i := i + 1;
      }
      k := k + 1;
    }
  }

  lemma {:induction false} EqualWeightsLayout(pool: seq<Target>, k: nat)
    requires AllEqual(pool) && k <= |pool|
    ensures |Slots(pool, k)| == k
    ensures forall i :: 0 <= i < k ==> Slots(pool, k)[i] == i
  {
    if k > 0 {
      EqualWeightsLayout(pool, k - 1);
    }
  }

  /** The pool position that the k-th pick after counter value c selects. */
  function PickedPosition(layout: seq<nat>, c: nat, k: nat): nat
    requires layout != []
  {
    layout[((c + k) % WRAP) % |layout|]
  }

  class RoundRobin {
    var counter: nat

    ghost predicate Valid()
      reads this
    {
      counter < WRAP
    }

    constructor ()
      ensures Valid() && counter == 0
    {
      counter := 0;
    }

    method Pick(pool: seq<Target>) returns (target: Option<Target>)
      requires Valid()
      modifies this
      ensures Valid()
      ensures target.None? <==> pool == []
      ensures |pool| <= 1 ==> counter == old(counter)
      ensures |pool| == 1 ==> target == Some(pool[0])
      ensures |pool| >= 2 ==>
        && counter == (old(counter) + 1) % WRAP
        && target == Some(pool[PickedPosition(Layout(pool), old(counter), 1)])
    {
      if |pool| == 0 {
        return None;
      }
      if |pool| == 1 {
        return Some(pool[0]);
      }
      var expanded := ExpandByWeight(pool);
      counter := if counter + 1 == WRAP then 0 else counter + 1;
      return Some(expanded[counter % |expanded|]);
    }
  }

  // ---------------------------------------------------------------- fairness

  /** How often the first n picks after counter value c select position j. */
  function Picked(layout: seq<nat>, c: nat, n: nat, j: nat): nat
    requires layout != []
  {
    if n == 0 then 0
    else Picked(layout, c, n - 1, j) + if PickedPosition(layout, c, n) == j then 1 else 0
  }

  function Multiplicity(s: seq<nat>, j: nat): nat {
    if s == [] then 0
    else Multiplicity(s[..|s| - 1], j) + if s[|s| - 1] == j then 1 else 0
  }

  /** The counter's wraparound does not show: it is not reached, or the cycle length divides 2^64. */
  predicate Smooth(layout: seq<nat>, c: nat, n: nat)
    requires layout != []
  {
    c + n < WRAP || WRAP % |layout| == 0
  }

  /** The same pick without the 64-bit wraparound. */
  function Slot(layout: seq<nat>, x: nat): nat
    requires layout != []
  {
    layout[x % |layout|]
  }

  lemma MulMonotone(a: int, b: int, n: nat)
    requires a <= b
    ensures a * n <= b * n
  {
  }

  lemma DivModUnique(x: int, q: int, r: int, n: nat)
    requires 0 <= r < n && x == q * n + r
    ensures x / n == q && x % n == r
  {
    var q', r' := x / n, x % n;
    assert x == q' * n + r';
    if q < q' {
      MulMonotone(q + 1, q', n);
    } else if q' < q {
      MulMonotone(q' + 1, q, n);
    }
  }

  lemma QuotientBounds(n: nat, len: nat) returns (q: nat)
    requires 0 < len
    ensures q == n / len && n == q * len + n % len
    ensures q * len <= n < q * len + len
  {
    q := n / len;
  }

  lemma ModPlusMultiple(a: nat, q: nat, n: nat)
    requires 0 < n
    ensures (q * n + a) % n == a % n && (q * n + a) / n == q + a / n
  {
    assert (q + a / n) * n == q * n + a / n * n;
    assert a == a / n * n + a % n;
    DivModUnique(q * n + a, q + a / n, a % n, n);
  }

  lemma MulAssociative(q: int, d: int, n: int)
    ensures q * (d * n) == (q * d) * n
  {
  }

  lemma ModOfMod(x: nat, m: nat, n: nat)
    requires 0 < n && 0 < m && m % n == 0
    ensures (x % m) % n == x % n
  {
    var q := QuotientBounds(x, m);
    var d := QuotientBounds(m, n);
    MulAssociative(q, d, n);
    assert x % m == x - q * m;
    ModPlusMultiple(x % m, q * d, n);
  }

  lemma SmoothPick(layout: seq<nat>, c: nat, n: nat, k: nat)
    requires layout != [] && Smooth(layout, c, n) && k <= n
    ensures PickedPosition(layout, c, k) == Slot(layout, c + k)
  {
    if c + n >= WRAP {
      ModOfMod(c + k, WRAP, |layout|);
    }
  }

  /** Selections of j among the slots x + 1, .., x + n. */
  function Selected(layout: seq<nat>, x: nat, n: nat, j: nat): nat
    requires layout != []
  {
    if n == 0 then 0 else Selected(layout, x, n - 1, j) + if Slot(layout, x + n) == j then 1 else 0
  }

  lemma {:induction false} PickedIsSelected(layout: seq<nat>, c: nat, n: nat, m: nat, j: nat)
    requires layout != [] && Smooth(layout, c, n) && m <= n
    ensures Picked(layout, c, m, j) == Selected(layout, c, m, j)
    decreases m
  {
    if m > 0 {
      PickedIsSelected(layout, c, n, m - 1, j);
      SmoothPick(layout, c, n, m);
    }
  }

  lemma {:induction false} SelectedSplits(layout: seq<nat>, x: nat, m: nat, n: nat, j: nat)
    requires layout != []
    ensures Selected(layout, x, m + n, j) == Selected(layout, x, m, j) + Selected(layout, x + m, n, j)
    decreases n
  {
    if n > 0 {
      SelectedSplits(layout, x, m, n - 1, j);
    }
  }

  lemma {:induction false} SelectedPrefix(layout: seq<nat>, m: nat, j: nat)
    requires layout != [] && m < |layout|
    ensures Selected(layout, 0, m, j) == Multiplicity(layout[1..m + 1], j)
  {
    if m > 0 {
      SelectedPrefix(layout, m - 1, j);
      assert layout[1..m + 1][..m - 1] == layout[1..m];
      DivModUnique(m, 0, m, |layout|);
    }
  }

  lemma {:induction false} MultiplicityPrepend(x: nat, s: seq<nat>, j: nat)
    ensures Multiplicity([x] + s, j) == (if x == j then 1 else 0) + Multiplicity(s, j)
  {
    if s == [] {
      assert [x] + s == [x];
      assert [x][..0] == [];
    } else {
      assert ([x] + s)[..|s|] == [x] + s[..|s| - 1];
      MultiplicityPrepend(x, s[..|s| - 1], j);
    }
  }

  /** One full cycle from slot 1 on goes through the layout. */
  lemma FirstCycle(layout: seq<nat>, j: nat)
    requires layout != []
    ensures Selected(layout, 0, |layout|, j) == Multiplicity(layout, j)
  {
    var n := |layout|;
    SelectedPrefix(layout, n - 1, j);
    assert Slot(layout, 0 + n) == layout[0] by {
      ModPlusMultiple(0, 1, n);
    }
    assert layout[1..n - 1 + 1] == layout[1..];
    assert layout == [layout[0]] + layout[1..];
    MultiplicityPrepend(layout[0], layout[1..], j);
  }

  /** Where a cycle starts does not matter. */
  lemma {:induction false} CycleAnywhere(layout: seq<nat>, x: nat, j: nat)
    requires layout != []
    ensures Selected(layout, x, |layout|, j) == Multiplicity(layout, j)
  {
    var n := |layout|;
    if x == 0 {
      FirstCycle(layout, j);
    } else {
      CycleAnywhere(layout, x - 1, j);
      SelectedSplits(layout, x - 1, 1, n, j);
      SelectedSplits(layout, x - 1, n, 1, j);
      assert Selected(layout, x - 1, 1, j) == if Slot(layout, x) == j then 1 else 0;
      assert Selected(layout, x - 1 + n, 1, j) == if Slot(layout, x + n) == j then 1 else 0;
      ModPlusMultiple(x, 1, n);
    }
  }

  lemma {:induction false} MultiplicityConcat(s: seq<nat>, t: seq<nat>, j: nat)
    ensures Multiplicity(s + t, j) == Multiplicity(s, j) + Multiplicity(t, j)
  {
    if t == [] {
      assert s + t == s;
    } else {
      assert (s + t)[..|s + t| - 1] == s + t[..|t| - 1];
      MultiplicityConcat(s, t[..|t| - 1], j);
    }
  }

  lemma {:induction false} MultiplicityRepeat(i: nat, n: nat, j: nat)
    ensures Multiplicity(Repeat(i, n), j) == if i == j then n else 0
  {
    if n > 0 {
      assert Repeat(i, n)[..n - 1] == Repeat(i, n - 1);
      MultiplicityRepeat(i, n - 1, j);
    }
  }

  lemma MultiplicityOfBlock(front: seq<nat>, i: nat, n: nat, j: nat)
    ensures Multiplicity(front + Repeat(i, n), j) == Multiplicity(front, j) + if i == j then n else 0
  {
    MultiplicityConcat(front, Repeat(i, n), j);
    MultiplicityRepeat(i, n, j);
  }

  lemma NoSlots(j: nat)
    ensures Multiplicity([], j) == 0
  {
  }

  /** The expanded list holds each position exactly its share of times. */
  lemma {:induction false} LayoutShares(pool: seq<Target>, k: nat, j: nat)
    requires k <= |pool| && j < |pool|
    ensures Multiplicity(Slots(pool, k), j) == if j < k then Share(pool, j) else 0
  {
    hide Share, Multiplicity;
    if k == 0 {
      NoSlots(j);
    } else {
      LayoutShares(pool, k - 1, j);
      MultiplicityOfBlock(Slots(pool, k - 1), k - 1, Share(pool, k - 1), j);
    }
  }

  /** What a position is due in one cycle: its weight between 1 and 100, or once each if all weights are equal. */
  ghost predicate Due(pool: seq<Target>, j: nat, n: nat)
    requires j < |pool|
  {
    var equal := forall i, k :: 0 <= i < |pool| && 0 <= k < |pool| ==> pool[i].weight == pool[k].weight;
    var weight := pool[j].weight;
    if equal || weight < 1 then n == 1 else if weight > 100 then n == 100 else n == weight
  }

  lemma ShareIsDue(pool: seq<Target>, j: nat)
    requires j < |pool|
    ensures Due(pool, j, Share(pool, j))
  {
  }

  /** The expanded list is as long as the dues of all positions together ask for, each position in its place. */
  lemma LayoutIsDue(pool: seq<Target>, j: nat)
    requires j < |pool|
    ensures Due(pool, j, Multiplicity(Layout(pool), j))
  {
    LayoutShares(pool, |pool|, j);
    ShareIsDue(pool, j);
  }

  /** Any run as long as the expanded list selects each pool position exactly as often as its weight is due. */
  lemma CycleIsFair(pool: seq<Target>, c: nat, j: nat)
    requires j < |pool| && Smooth(Layout(pool), c, |Layout(pool)|)
    ensures Picked(Layout(pool), c, |Layout(pool)|, j) == Share(pool, j)
    ensures Due(pool, j, Picked(Layout(pool), c, |Layout(pool)|, j))
  {
    ShareIsDue(pool, j);
    var layout := Layout(pool);
    PickedIsSelected(layout, c, |layout|, |layout|, j);
    CycleAnywhere(layout, c, j);
    LayoutShares(pool, |pool|, j);
  }

  lemma {:induction false} SelectedBounds(layout: seq<nat>, x: nat, q: nat, n: nat, j: nat)
    requires layout != [] && q * |layout| <= n < q * |layout| + |layout|
    ensures q * Multiplicity(layout, j) <= Selected(layout, x, n, j)
    ensures Selected(layout, x, n, j) <= q * Multiplicity(layout, j) + Multiplicity(layout, j)
    decreases q
  {
    var len, m := |layout|, Multiplicity(layout, j);
    CycleAnywhere(layout, x, j);
    if q == 0 {
      SelectedSplits(layout, x, n, len - n, j);
    } else {
      assert q * len == (q - 1) * len + len;
      assert q * m == (q - 1) * m + m;
      MulMonotone(0, q - 1, len);
      SelectedSplits(layout, x, len, n - len, j);
      SelectedBounds(layout, x + len, q - 1, n - len, j);
    }
  }

  /** Any number of picks stays within one cycle of the exact proportion. */
  lemma AnyRunIsNearlyFair(pool: seq<Target>, c: nat, n: nat, j: nat)
    requires j < |pool| && Smooth(Layout(pool), c, n)
    ensures var cycles := n / |Layout(pool)|;
      cycles * Share(pool, j) <= Picked(Layout(pool), c, n, j) <= cycles * Share(pool, j) + Share(pool, j)
  {
    var layout := Layout(pool);
    PickedIsSelected(layout, c, n, n, j);
    LayoutShares(pool, |pool|, j);
    var q := QuotientBounds(n, |layout|);
    SelectedBounds(layout, c, q, n, j);
  }

  // ---------------------------------------------------------------- wraparound

  /** Slots lie in pool order: the list starts with the first position and ends with the last. */
  lemma {:induction false} SlotsAreOrdered(pool: seq<Target>, k: nat)
    requires 0 < k <= |pool|
    ensures forall i, j :: 0 <= i < j < |Slots(pool, k)| ==> Slots(pool, k)[i] <= Slots(pool, k)[j]
    ensures Slots(pool, k)[0] == 0 && Slots(pool, k)[|Slots(pool, k)| - 1] == k - 1
  {
    if k > 1 {
      SlotsAreOrdered(pool, k - 1);
    }
  }

  lemma {:induction false} PickedShift(layout: seq<nat>, c: nat, n: nat, j: nat)
    requires layout != []
    ensures Picked(layout, c, n + 1, j)
      == Picked(layout, c + 1, n, j) + if PickedPosition(layout, c, 1) == j then 1 else 0
  {
    if n > 0 {
      PickedShift(layout, c, n - 1, j);
      assert PickedPosition(layout, c, n + 1) == PickedPosition(layout, c + 1, n);
    } else {
      assert Picked(layout, c, 0, j) == 0;
    }
  }

  /** Every full cycle from every counter value selects each pool position its share of times. */
  ghost predicate AlwaysFair(pool: seq<Target>) {
    forall c: nat, j: nat :: c < WRAP && j < |pool| ==> Picked(Layout(pool), c, |Layout(pool)|, j) == Share(pool, j)
  }

  /** If two neighbouring cycles are fair, the pick that enters equals the pick that leaves. */
  lemma FairCyclesRepeat(pool: seq<Target>, c: nat)
    requires pool != [] && AlwaysFair(pool) && c + 1 < WRAP
    ensures PickedPosition(Layout(pool), c, 1) == PickedPosition(Layout(pool), c, |Layout(pool)| + 1)
  {
    var layout := Layout(pool);
    var n, j := |layout|, PickedPosition(layout, c, 1);
    PickedShift(layout, c, n, j);
    assert Picked(layout, c, n, j) == Share(pool, j) == Picked(layout, c + 1, n, j);
  }

  /** With 0 < r < n, the slots at r - 1 and r would have to be those of the last and the first position. */
  lemma UnfairAcrossWrap(pool: seq<Target>)
    requires 2 <= |pool| && |Layout(pool)| < WRAP && WRAP % |Layout(pool)| != 0
    ensures !AlwaysFair(pool)
  {
    var layout := Layout(pool);
    var n, r := |layout|, WRAP % |layout|;
    SlotsAreOrdered(pool, |pool|);
    if AlwaysFair(pool) {
      FairCyclesRepeat(pool, WRAP - n - 1);
      FairCyclesRepeat(pool, WRAP - 2);
      hide AlwaysFair, Slots, Share;
      ResiduesAtWrap(n, WRAP);
      assert false;
    }
  }

  /** The slots hit just before the wraparound, and one cycle after them. */
  lemma ResiduesAtWrap(n: nat, wrap: nat)
    requires 0 < n < wrap && wrap % n != 0
    ensures (wrap - n - 1 + 1) % wrap % n == wrap % n && (wrap - n - 1 + (n + 1)) % wrap % n == 0
    ensures (wrap - 2 + 1) % wrap % n == wrap % n - 1 && (wrap - 2 + (n + 1)) % wrap % n == n - 1
  {
    var q := QuotientBounds(wrap, n);
    var r := wrap % n;
    assert (q - 1) * n == q * n - n;
    DivModUnique(wrap - n, 0, wrap - n, wrap);
    DivModUnique(wrap - n, q - 1, r, n);
    DivModUnique(wrap, 1, 0, wrap);
    DivModUnique(0, 0, 0, n);
    DivModUnique(wrap - 1, 0, wrap - 1, wrap);
    DivModUnique(wrap - 1, q, r - 1, n);
    DivModUnique(wrap - 1 + n, 1, n - 1, wrap);
    DivModUnique(n - 1, 0, n - 1, n);
  }

  /** Every cycle from every counter value is fair exactly when the expanded length divides 2^64. */
  lemma WraparoundIsFairIff(pool: seq<Target>)
    requires 2 <= |pool| && |Layout(pool)| < WRAP
    ensures AlwaysFair(pool) <==> WRAP % |Layout(pool)| == 0
  {
    if WRAP % |Layout(pool)| == 0 {
      forall c: nat, j: nat | c < WRAP && j < |pool|
        ensures Picked(Layout(pool), c, |Layout(pool)|, j) == Share(pool, j)
      {
        CycleIsFair(pool, c, j);
      }
    } else {
      UnfairAcrossWrap(pool);
    }
  }

  /** With equal weights the expanded length is the pool size. */
  lemma EqualWeightsWraparound(pool: seq<Target>)
    requires 2 <= |pool| < WRAP && AllEqual(pool)
    ensures AlwaysFair(pool) <==> WRAP % |pool| == 0
  {
    EqualWeightsLayout(pool, |pool|);
    WraparoundIsFairIff(pool);
  }
}
