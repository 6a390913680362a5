/** Least-connections balancing while configuration reloads swap snapshots and strategy objects. */
module LeastConnBalancing {
  import opened Options
  import opened RoundRobinBalancing

  type Counts = map<string, int>

  function Count(counts: Counts, id: string): int {
    if id in counts then counts[id] else 0
  }

  /** The first target whose count is minimal over the pool. */
  ghost predicate IsLeast(counts: Counts, pool: seq<Target>, k: nat) {
    && k < |pool|
    && (forall i :: 0 <= i < |pool| ==> Count(counts, pool[k].id) <= Count(counts, pool[i].id))
    && (forall i :: 0 <= i < k ==> Count(counts, pool[k].id) < Count(counts, pool[i].id))
  }

  function LeastIndex(counts: Counts, pool: seq<Target>): (k: nat)
    requires pool != []
    ensures IsLeast(counts, pool, k)
  {
    if |pool| == 1 then 0
    else
      var k := LeastIndex(counts, pool[..|pool| - 1]);
      if Count(counts, pool[|pool| - 1].id) < Count(counts, pool[k].id) then |pool| - 1 else k
  }

  function CountedUp(counts: Counts, id: string): Counts {
    counts[id := Count(counts, id) + 1]
  }

  function CountedDown(counts: Counts, id: string): Counts {
    if id !in counts then counts
    else if counts[id] <= 1 then counts - {id}
    else counts[id := counts[id] - 1]
  }

  class LeastConn {
    var inFlight: Counts

    constructor ()
      ensures inFlight == map[]
    {
      inFlight := map[];
    }

    method Pick(pool: seq<Target>) returns (target: Option<Target>)
      modifies this
      ensures target.None? <==> pool == []
      ensures pool == [] ==> inFlight == old(inFlight)
      ensures pool != [] ==>
        && target == Some(pool[LeastIndex(old(inFlight), pool)])
        && inFlight == CountedUp(old(inFlight), target.value.id)
    {
      if |pool| == 0 {
        return None;
      }
      var best := pool[0];
      var bestCount := Count(inFlight, best.id);
      var i := 1;
      while i < |pool|
        invariant 1 <= i <= |pool|
        invariant best == pool[LeastIndex(inFlight, pool[..i])]
        invariant bestCount == Count(inFlight, best.id)
        invariant inFlight == old(inFlight)
      {
        assert pool[..i + 1][..i] == pool[..i];
        var c := Count(inFlight, pool[i].id);
        if c < bestCount {
          best := pool[i];
          bestCount := c;
        }
        i := i + 1;
      }
      assert pool[..|pool|] == pool;
      inFlight := inFlight[best.id := Count(inFlight, best.id) + 1];
      return Some(best);
    }

    method Release(target: Target)
      modifies this
      ensures inFlight == CountedDown(old(inFlight), target.id)
    {
      if target.id in inFlight {
        var c := inFlight[target.id];
        if c <= 1 {
          inFlight := inFlight - {target.id};
        } else {
          inFlight := inFlight[target.id := c - 1];
        }
      }
    }
  }

  // ---------------------------------------------------------------- pools

  datatype UpstreamTarget = UpstreamTarget(id: string, url: string, weight: int, enabled: bool)

  datatype Upstream = Upstream(id: string, lbStrategy: string, targetUrl: string, targets: seq<UpstreamTarget>)

  function EnabledTargets(raw: seq<UpstreamTarget>): seq<Target> {
    if raw == [] then []
    else
      var rest, last := EnabledTargets(raw[..|raw| - 1]), raw[|raw| - 1];
      if last.enabled then rest + [Target(last.id, last.url, last.weight)] else rest
  }

  /** The enabled targets, or the upstream's own address when it has none. */
  function PoolTargets(u: Upstream): seq<Target> {
    var targets := EnabledTargets(u.targets);
    if targets == [] && u.targetUrl != "" then [Target(u.id, u.targetUrl, 1)] else targets
  }

  /** An enabled entry of the configuration with this target's id, address and weight. */
  ghost predicate EnabledAs(raw: seq<UpstreamTarget>, t: Target) {
    exists r :: r in raw && r.enabled && r.id == t.id && r.url == t.url && r.weight == t.weight
  }

  lemma {:induction false} EnabledTargetsMeaning(raw: seq<UpstreamTarget>)
    ensures forall t :: t in EnabledTargets(raw) <==> EnabledAs(raw, t)
    ensures EnabledTargets(raw) == [] <==> forall r :: r in raw ==> !r.enabled
  {
    if raw != [] {
      var init, last := raw[..|raw| - 1], raw[|raw| - 1];
      EnabledTargetsMeaning(init);
      assert raw == init + [last];
      forall t
        ensures EnabledAs(raw, t) <==>
          EnabledAs(init, t) || (last.enabled && t == Target(last.id, last.url, last.weight))
      {
        if r :| r in raw && r.enabled && r.id == t.id && r.url == t.url && r.weight == t.weight {
          assert r in init || r == last;
        }
      }
    }
  }

  /** A pool holds exactly the enabled targets, or the upstream's own address when none is enabled. */
  lemma PoolMeaning(u: Upstream, t: Target)
    ensures t in PoolTargets(u) <==>
      || EnabledAs(u.targets, t)
      || (&& (forall r :: r in u.targets ==> !r.enabled)
          && u.targetUrl != "" && t.id == u.id && t.url == u.targetUrl && t.weight == 1)
  {
    EnabledTargetsMeaning(u.targets);
    hide EnabledAs;
  }

  // ---------------------------------------------------------------- the data plane as a whole

  datatype Strategy =
    | LeastConnStrategy(counts: Counts)
    | RoundRobinStrategy(counter: nat)

  /** A pool refers to its strategy object, shared by every snapshot that holds it. */
  datatype Pool = Pool(targets: seq<Target>, strategy: nat)

  /** A request between its pick and its deferred release. */
  datatype Flight = Flight(strategy: nat, target: Target)

  datatype Gateway = Gateway(
    objects: map<nat, Strategy>,
    strategies: map<string, nat>,
    building: map<string, Pool>,
    snapshot: map<string, Pool>,
    resolved: map<nat, Pool>,
    flights: map<nat, Flight>)

  datatype Step =
    | BeginReload
    | BuildPool(u: Upstream, freshId: nat)
    | Publish
    | Resolve(request: nat, upstream: string)
    | PickTarget(request: nat, healthy: seq<bool>)
    | Release(request: nat)

  const INITIAL := Gateway(map[], map[], map[], map[], map[], map[])

  function NewStrategy(lbStrategy: string): Strategy {
    if lbStrategy == "least_conn" then LeastConnStrategy(map[]) else RoundRobinStrategy(0)
  }

  predicate HasName(s: Strategy, lbStrategy: string) {
    s.LeastConnStrategy? <==> lbStrategy == "least_conn"
  }

  /** strategyFor: the object to use, and whether it has to be created. */
  predicate Reuses(g: Gateway, upstream: string, lbStrategy: string) {
    && upstream in g.strategies
    && g.strategies[upstream] in g.objects
    && HasName(g.objects[g.strategies[upstream]], lbStrategy)
  }

  /** Health is asked target by target: the i-th answer is about the i-th target. */
  predicate SaidHealthy(healthy: seq<bool>, i: nat) {
    i < |healthy| && healthy[i]
  }

  function FilterHealthy(targets: seq<Target>, healthy: seq<bool>): seq<Target> {
    if targets == [] then []
    else
      var rest, last := FilterHealthy(targets[..|targets| - 1], healthy), targets[|targets| - 1];
      if SaidHealthy(healthy, |targets| - 1) then rest + [last] else rest
  }

  predicate Enabled(g: Gateway, step: Step) {
    match step
    case BeginReload => true
    case BuildPool(_, freshId) => freshId !in g.objects
    case Publish => true
    case Resolve(request, upstream) =>
      request !in g.resolved && request !in g.flights && upstream in g.snapshot && g.snapshot[upstream].targets != []
    case PickTarget(request, _) =>
      request in g.resolved && request !in g.flights && g.resolved[request].strategy in g.objects
    case Release(request) => request in g.flights && g.flights[request].strategy in g.objects
  }

  function PickIndex(s: Strategy, pool: seq<Target>): (k: nat)
    requires pool != []
    ensures k < |pool|
  {
    match s
    case LeastConnStrategy(counts) => LeastIndex(counts, pool)
    case RoundRobinStrategy(counter) => if |pool| == 1 then 0 else PickedPosition(Layout(pool), counter, 1)
  }

  function AfterPick(s: Strategy, pool: seq<Target>): Strategy
    requires pool != []
  {
    match s
    case LeastConnStrategy(counts) => LeastConnStrategy(CountedUp(counts, pool[LeastIndex(counts, pool)].id))
    case RoundRobinStrategy(counter) => if |pool| == 1 then s else RoundRobinStrategy((counter + 1) % WRAP)
  }

  function AfterRelease(s: Strategy, target: Target): Strategy {
    match s
    case LeastConnStrategy(counts) => LeastConnStrategy(CountedDown(counts, target.id))
    case RoundRobinStrategy(_) => s
  }

  function Apply(g: Gateway, step: Step): Gateway
    requires Enabled(g, step)
  {
    match step
    case BeginReload => g.(building := map[])
    case BuildPool(u, freshId) =>
      if Reuses(g, u.id, u.lbStrategy) then
        g.(building := g.building[u.id := Pool(PoolTargets(u), g.strategies[u.id])])
      else
        g.(objects := g.objects[freshId := NewStrategy(u.lbStrategy)],
           strategies := g.strategies[u.id := freshId],
           building := g.building[u.id := Pool(PoolTargets(u), freshId)])
    case Publish => g.(snapshot := g.building)
    case Resolve(request, upstream) => g.(resolved := g.resolved[request := g.snapshot[upstream]])
    case PickTarget(request, healthy) =>
      var pool := g.resolved[request];
      var offered := FilterHealthy(pool.targets, healthy);
      if offered == [] then g.(resolved := g.resolved - {request})
      else
        var s := g.objects[pool.strategy];
        g.(objects := g.objects[pool.strategy := AfterPick(s, offered)],
           resolved := g.resolved - {request},
           flights := g.flights[request := Flight(pool.strategy, offered[PickIndex(s, offered)])])
    case Release(request) =>
      var f := g.flights[request];
      g.(objects := g.objects[f.strategy := AfterRelease(g.objects[f.strategy], f.target)],
         flights := g.flights - {request})
  }

  ghost predicate Run(g: Gateway, steps: seq<Step>, g': Gateway)
    decreases |steps|
  {
    if steps == [] then g == g'
    else Enabled(g, steps[0]) && Run(Apply(g, steps[0]), steps[1..], g')
  }

  // ---------------------------------------------------------------- conservation

  /** The requests in flight that were picked on one strategy object for one target. */
  function Outstanding(flights: map<nat, Flight>, strategy: nat, id: string): set<nat> {
    set r | r in flights && flights[r].strategy == strategy && flights[r].target.id == id
  }

  /** Stored counts are positive, and each is the number of picks not yet released on that same object. */
  ghost predicate Conserved(g: Gateway, o: nat)
    requires o in g.objects
  {
    g.objects[o].LeastConnStrategy? ==>
      && (forall id :: id in g.objects[o].counts ==> g.objects[o].counts[id] >= 1)
      && (forall id :: Count(g.objects[o].counts, id) == |Outstanding(g.flights, o, id)|)
  }

  /** Every reference to a strategy object is to one that exists. */
  ghost predicate RefsExist(g: Gateway) {
    && (forall u :: u in g.strategies ==> g.strategies[u] in g.objects)
    && PoolsExist(g.objects.Keys, g.building)
    && PoolsExist(g.objects.Keys, g.snapshot)
    && PoolsExist(g.objects.Keys, g.resolved)
    && (forall r :: r in g.flights ==> g.flights[r].strategy in g.objects)
  }

  ghost predicate PoolsExist<K(!new)>(objects: set<nat>, pools: map<K, Pool>) {
    forall k :: k in pools ==> pools[k].strategy in objects
  }

  ghost predicate Inv(g: Gateway) {
    RefsExist(g) && forall o :: o in g.objects ==> Conserved(g, o)
  }

  lemma FlightAdded(flights: map<nat, Flight>, request: nat, f: Flight, o: nat, id: string)
    requires request !in flights
    ensures |Outstanding(flights[request := f], o, id)|
      == |Outstanding(flights, o, id)| + if f.strategy == o && f.target.id == id then 1 else 0
  {
    var before, after := Outstanding(flights, o, id), Outstanding(flights[request := f], o, id);
    if f.strategy == o && f.target.id == id {
      assert after == before + {request};
    } else {
      assert after == before;
    }
  }

  lemma FlightRemoved(flights: map<nat, Flight>, request: nat, o: nat, id: string)
    requires request in flights
    ensures |Outstanding(flights - {request}, o, id)|
      == |Outstanding(flights, o, id)|
         - if flights[request].strategy == o && flights[request].target.id == id then 1 else 0
  {
    var before, after := Outstanding(flights, o, id), Outstanding(flights - {request}, o, id);
    if flights[request].strategy == o && flights[request].target.id == id {
      assert request in before;
      assert after == before - {request};
    } else {
      assert after == before;
    }
  }

  lemma PickConserves(g: Gateway, request: nat, healthy: seq<bool>, o: nat)
    requires Inv(g) && Enabled(g, PickTarget(request, healthy)) && o in g.objects
    ensures o in Apply(g, PickTarget(request, healthy)).objects
    ensures Conserved(Apply(g, PickTarget(request, healthy)), o)
  {
    hide FilterHealthy, LeastIndex, PickedPosition, Layout, RefsExist, Outstanding;
    var pool := g.resolved[request];
    var offered := FilterHealthy(pool.targets, healthy);
    var g' := Apply(g, PickTarget(request, healthy));
    assert Conserved(g, o);
    if offered != [] && g.objects[o].LeastConnStrategy? {
      var f := g'.flights[request];
      forall id
        ensures Count(g'.objects[o].counts, id) == |Outstanding(g'.flights, o, id)|
      {
        FlightAdded(g.flights, request, f, o, id);
        assert Count(g.objects[o].counts, id) == |Outstanding(g.flights, o, id)|;
      }
    }
  }

  lemma ReleaseConserves(g: Gateway, request: nat, o: nat)
    requires Inv(g) && Enabled(g, Release(request)) && o in g.objects
    ensures o in Apply(g, Release(request)).objects
    ensures Conserved(Apply(g, Release(request)), o)
  {
    hide RefsExist;
    var g' := Apply(g, Release(request));
    var f := g.flights[request];
    assert Conserved(g, o);
    if g.objects[o].LeastConnStrategy? {
      forall id
        ensures Count(g'.objects[o].counts, id) == |Outstanding(g'.flights, o, id)|
      {
        FlightRemoved(g.flights, request, o, id);
        assert Count(g.objects[o].counts, id) == |Outstanding(g.flights, o, id)|;
        if f.strategy == o && f.target.id == id {
          assert request in Outstanding(g.flights, o, id);
        }
      }
    }
  }

  lemma NewObjectConserves(g: Gateway, step: Step)
    requires Inv(g) && step.BuildPool? && Enabled(g, step)
    requires step.freshId in Apply(g, step).objects
    ensures Conserved(Apply(g, step), step.freshId)
  {
    hide PoolsExist, HasName;
    forall id
      ensures Outstanding(g.flights, step.freshId, id) == {}
    {
    }
  }

  lemma MorePoolsExist<K(!new)>(objects: set<nat>, more: set<nat>, pools: map<K, Pool>)
    requires objects <= more && PoolsExist(objects, pools)
    ensures PoolsExist(more, pools)
  {
  }

  lemma AddedPoolExists(objects: set<nat>, more: set<nat>, pools: map<string, Pool>, upstream: string, pool: Pool)
    requires objects <= more && PoolsExist(objects, pools) && pool.strategy in more
    ensures PoolsExist(more, pools[upstream := pool])
  {
  }

  lemma BuildKeepsRefs(g: Gateway, step: Step)
    requires RefsExist(g) && Enabled(g, step) && step.BuildPool?
    ensures RefsExist(Apply(g, step))
  {
    hide NewStrategy, HasName, PoolsExist;
    var g' := Apply(g, step);
    assert g.objects.Keys <= g'.objects.Keys;
    AddedPoolExists(g.objects.Keys, g'.objects.Keys, g.building, step.u.id, g'.building[step.u.id]);
    MorePoolsExist(g.objects.Keys, g'.objects.Keys, g.snapshot);
    MorePoolsExist(g.objects.Keys, g'.objects.Keys, g.resolved);
  }

  lemma PickKeepsRefs(g: Gateway, step: Step)
    requires RefsExist(g) && Enabled(g, step) && step.PickTarget?
    ensures RefsExist(Apply(g, step))
  {
    hide FilterHealthy, PickIndex, AfterPick;
    var g' := Apply(g, step);
    assert g'.objects.Keys == g.objects.Keys;
    assert g'.strategies == g.strategies && g'.building == g.building && g'.snapshot == g.snapshot;
  }

  lemma StepKeepsRefs(g: Gateway, step: Step)
    requires RefsExist(g) && Enabled(g, step)
    ensures RefsExist(Apply(g, step))
  {
    hide AfterRelease;
    if step.BuildPool? {
      BuildKeepsRefs(g, step);
    } else if step.PickTarget? {
      PickKeepsRefs(g, step);
    } else if step.Release? {
      assert Apply(g, step).objects.Keys == g.objects.Keys;
    }
  }

  lemma OtherStepConserves(g: Gateway, step: Step, o: nat)
    requires Inv(g) && Enabled(g, step) && !step.PickTarget? && !step.Release? && o in g.objects
    ensures o in Apply(g, step).objects && Conserved(Apply(g, step), o)
  {
    hide RefsExist;
    assert Conserved(g, o);
  }

  lemma StepKeepsInv(g: Gateway, step: Step)
    requires Inv(g) && Enabled(g, step)
    ensures Inv(Apply(g, step))
  {
    hide FilterHealthy, LeastIndex, PickedPosition, Layout, AfterPick, AfterRelease, RefsExist, Conserved;
    StepKeepsRefs(g, step);
    var g' := Apply(g, step);
    forall o | o in g'.objects
      ensures Conserved(g', o)
    {
      match step
      case PickTarget(request, healthy) => PickConserves(g, request, healthy, o);
      case Release(request) => ReleaseConserves(g, request, o);
      case BuildPool(_, freshId) =>
        if o == freshId {
          NewObjectConserves(g, step);
        } else {
          OtherStepConserves(g, step, o);
        }
      case _ => OtherStepConserves(g, step, o);
    }
  }

  lemma {:induction false} RunExtends(g: Gateway, steps: seq<Step>, mid: Gateway, step: Step)
    requires Run(g, steps, mid) && Enabled(mid, step)
    ensures Run(g, steps + [step], Apply(mid, step))
    decreases |steps|
  {
    hide Apply, Enabled;
    if steps == [] {
      assert steps + [step] == [step] && [step][1..] == [];
    } else {
      assert (steps + [step])[0] == steps[0];
      assert (steps + [step])[1..] == steps[1..] + [step];
      RunExtends(Apply(g, steps[0]), steps[1..], mid, step);
    }
  }

  lemma ReloadBegins(g: Gateway)
    requires Inv(g)
    ensures Inv(g.(building := map[])) && Run(g, [BeginReload], g.(building := map[]))
  {
    StepKeepsInv(g, BeginReload);
    assert Run(Apply(g, BeginReload), [BeginReload][1..], Apply(g, BeginReload));
  }

  lemma ReloadPublishes(g: Gateway)
    requires Inv(g)
    ensures Inv(g.(snapshot := g.building)) && Apply(g, Publish) == g.(snapshot := g.building)
  {
    StepKeepsInv(g, Publish);
  }

  lemma {:induction false} RunKeepsInv(g: Gateway, steps: seq<Step>, g': Gateway)
    requires Inv(g) && Run(g, steps, g')
    ensures Inv(g')
    decreases |steps|
  {
    if steps != [] {
      StepKeepsInv(g, steps[0]);
      RunKeepsInv(Apply(g, steps[0]), steps[1..], g');
    }
  }

  /**
   * Over every interleaving of reloads, strategy changes, picks and releases, each count of each strategy object,
   * current or replaced, is the number of requests picked on that same object and not yet released.
   */
  lemma ConnectionsAreConserved(steps: seq<Step>, g: Gateway, o: nat, id: string)
    requires Run(INITIAL, steps, g)
    requires o in g.objects && g.objects[o].LeastConnStrategy?
    ensures Count(g.objects[o].counts, id) == |Outstanding(g.flights, o, id)|
    ensures id in g.objects[o].counts ==> g.objects[o].counts[id] >= 1
    ensures id in g.objects[o].counts <==> exists r :: r in Outstanding(g.flights, o, id)
  {
    RunKeepsInv(INITIAL, steps, g);
    assert Conserved(g, o);
    if r :| r in Outstanding(g.flights, o, id) {
      assert |Outstanding(g.flights, o, id)| > 0;
    } else {
      assert Outstanding(g.flights, o, id) == {};
    }
  }

  /** Once all requests have finished, no strategy object, current or replaced, holds any count. */
  lemma IdleGatewayHasNoCounts(steps: seq<Step>, g: Gateway, o: nat)
    requires Run(INITIAL, steps, g) && g.flights == map[]
    requires o in g.objects && g.objects[o].LeastConnStrategy?
    ensures g.objects[o].counts == map[]
  {
    RunKeepsInv(INITIAL, steps, g);
    assert Conserved(g, o);
    forall id
      ensures id !in g.objects[o].counts
    {
      assert Outstanding(g.flights, o, id) == {};
      assert Count(g.objects[o].counts, id) == |Outstanding(g.flights, o, id)|;
    }
  }

  /** Every least-connections pick goes to an offered target with the fewest requests in flight on that object. */
  lemma PickIsLeastLoaded(g: Gateway, request: nat, healthy: seq<bool>)
    requires Inv(g) && Enabled(g, PickTarget(request, healthy))
    requires g.objects[g.resolved[request].strategy].LeastConnStrategy?
    ensures var o := g.resolved[request].strategy;
      var offered := FilterHealthy(g.resolved[request].targets, healthy);
      var g' := Apply(g, PickTarget(request, healthy));
      offered != [] ==>
        && request in g'.flights
        && g'.flights[request].target in offered
        && forall t :: t in offered ==>
             |Outstanding(g.flights, o, g'.flights[request].target.id)| <= |Outstanding(g.flights, o, t.id)|
  {
    var o := g.resolved[request].strategy;
    var offered := FilterHealthy(g.resolved[request].targets, healthy);
    assert Conserved(g, o);
    if offered != [] {
      var counts := g.objects[o].counts;
      var k := LeastIndex(counts, offered);
      forall t | t in offered
        ensures |Outstanding(g.flights, o, offered[k].id)| <= |Outstanding(g.flights, o, t.id)|
      {
        assert Count(counts, offered[k].id) <= Count(counts, t.id);
        assert Count(counts, offered[k].id) == |Outstanding(g.flights, o, offered[k].id)|;
        assert Count(counts, t.id) == |Outstanding(g.flights, o, t.id)|;
      }
    }
  }

  /** Exactly the targets that were healthy when asked are offered. */
  lemma {:induction false} OfferedAreHealthy(targets: seq<Target>, healthy: seq<bool>)
    ensures forall t :: t in FilterHealthy(targets, healthy) <==>
      exists i: nat :: i < |targets| && SaidHealthy(healthy, i) && targets[i] == t
  {
    if targets != [] {
      var init, last := targets[..|targets| - 1], |targets| - 1;
      OfferedAreHealthy(init, healthy);
      forall t
        ensures t in FilterHealthy(targets, healthy) <==>
          exists i: nat :: i < |targets| && SaidHealthy(healthy, i) && targets[i] == t
      {
        assert forall i: nat :: i < last ==> init[i] == targets[i];
        if t in FilterHealthy(init, healthy) {
          var i: nat :| i < |init| && SaidHealthy(healthy, i) && init[i] == t;
          assert targets[i] == t;
        }
        if i: nat :| i < last && SaidHealthy(healthy, i) && targets[i] == t {
          assert init[i] == t;
        }
      }
    }
  }

  // ---------------------------------------------------------------- the loader and the proxy

  /** The steps one reload performs when the strategy objects it may create are numbered from `next`. */
  function ReloadSteps(upstreams: seq<Upstream>, next: nat): seq<Step> {
    [BeginReload] + seq(|upstreams|, i requires 0 <= i < |upstreams| =>
      BuildPool(upstreams[i], next + i)) + [Publish]
  }

  class DataPlane {
    var gateway: Gateway
    var next: nat

    ghost predicate Valid()
      reads this
    {
      Inv(gateway) && forall o :: o in gateway.objects ==> o < next
    }

    constructor ()
      ensures Valid() && gateway == INITIAL
    {
      gateway := INITIAL;
      next := 0;
    }

    /** One upstream of buildPoolsFromSnapshot, with strategyFor inlined. */
    method AddPool(u: Upstream)
      requires Valid()
      modifies this
      ensures Valid() && next == old(next) + 1
      ensures Enabled(old(gateway), BuildPool(u, old(next)))
      ensures gateway == Apply(old(gateway), BuildPool(u, old(next)))
      ensures gateway.building.Keys == old(gateway.building.Keys) + {u.id}
      ensures gateway.flights == old(gateway.flights) && gateway.resolved == old(gateway.resolved)
    {
      StepKeepsInv(gateway, BuildPool(u, next));
      var targets := [];
      var i := 0;
      while i < |u.targets|
        invariant 0 <= i <= |u.targets|
        invariant targets == EnabledTargets(u.targets[..i])
      {
        assert u.targets[..i + 1][..i] == u.targets[..i];
        var t := u.targets[i];
        if t.enabled {
          targets := targets + [Target(t.id, t.url, t.weight)];
        }
        i := i + 1;
      }
      assert u.targets[..i] == u.targets;
      if |targets| == 0 && u.targetUrl != "" {
        targets := [Target(u.id, u.targetUrl, 1)];
      }
      if u.id in gateway.strategies && HasName(gateway.objects[gateway.strategies[u.id]], u.lbStrategy) {
        gateway := gateway.(building := gateway.building[u.id := Pool(targets, gateway.strategies[u.id])]);
      } else {
        gateway := gateway.(
          objects := gateway.objects[next := NewStrategy(u.lbStrategy)],
          strategies := gateway.strategies[u.id := next],
          building := gateway.building[u.id := Pool(targets, next)]);
      }
      next := next + 1;
    }

    /** Loader.reload after a fetched snapshot: rebuild every pool, then swap the snapshot. */
    method Reload(upstreams: seq<Upstream>)
      requires Valid()
      modifies this
      ensures Valid()
      ensures Run(old(gateway), ReloadSteps(upstreams, old(next)), gateway)
      ensures gateway.flights == old(gateway.flights) && gateway.resolved == old(gateway.resolved)
      ensures gateway.snapshot.Keys == set u | u in upstreams :: u.id
    {
      hide Inv, PoolTargets, Run, Apply;
      ghost var start, base := gateway, next;
      ghost var steps := ReloadSteps(upstreams, base);
      ReloadBegins(gateway);
      gateway := gateway.(building := map[]);
      var i := 0;
      assert steps[..1] == [BeginReload];
      while i < |upstreams|
        invariant 0 <= i <= |upstreams|
        invariant Valid() && next == base + i
        invariant Run(start, steps[..1 + i], gateway)
        invariant gateway.building.Keys == set u | u in upstreams[..i] :: u.id
        invariant gateway.flights == start.flights && gateway.resolved == start.resolved
      {
        var u := upstreams[i];
        ghost var before, step := gateway, BuildPool(u, next);
        AddPool(u);
        RunExtends(start, steps[..1 + i], before, step);
        assert steps[..1 + i] + [step] == steps[..2 + i];
        assert upstreams[..i + 1] == upstreams[..i] + [u];
        i := i + 1;
      }
      assert upstreams[..i] == upstreams;
      RunExtends(start, steps[..1 + i], gateway, Publish);
      assert steps[..1 + i] + [Publish] == steps;
      ReloadPublishes(gateway);
      gateway := gateway.(snapshot := gateway.building);
    }

    /** resolveTarget after the snapshot was read, with the health checks as they stand now. */
    method ResolveTarget(request: nat, healthy: seq<bool>) returns (target: Option<Target>)
      requires Valid()
      requires request in gateway.resolved && request !in gateway.flights
      modifies this`gateway
      ensures Valid()
      ensures Enabled(old(gateway), PickTarget(request, healthy))
      ensures gateway == Apply(old(gateway), PickTarget(request, healthy))
      ensures target.None? <==>
        forall i: nat :: i < |old(gateway).resolved[request].targets| ==> !SaidHealthy(healthy, i)
      ensures target.Some? ==>
        exists i: nat :: i < |old(gateway).resolved[request].targets| && SaidHealthy(healthy, i)
          && old(gateway).resolved[request].targets[i] == target.value
    {
      StepKeepsInv(gateway, PickTarget(request, healthy));
      var pool := gateway.resolved[request];
      var offered := [];
      var i := 0;
      while i < |pool.targets|
        invariant 0 <= i <= |pool.targets|
        invariant offered == FilterHealthy(pool.targets[..i], healthy)
      {
        assert pool.targets[..i + 1][..i] == pool.targets[..i];
        if i < |healthy| && healthy[i] {
          offered := offered + [pool.targets[i]];
        }
        i := i + 1;
      }
      assert pool.targets[..i] == pool.targets;
      OfferedAreHealthy(pool.targets, healthy);
      if |offered| == 0 {
        assert forall i: nat :: i < |pool.targets| && SaidHealthy(healthy, i) ==> pool.targets[i] in offered;
        gateway := gateway.(resolved := gateway.resolved - {request});
        return None;
      }
      assert offered[0] in offered;
      var strategy := gateway.objects[pool.strategy];
      var picked := offered[PickIndex(strategy, offered)];
      assert picked in offered;
      gateway := gateway.(
        objects := gateway.objects[pool.strategy := AfterPick(strategy, offered)],
        resolved := gateway.resolved - {request},
        flights := gateway.flights[request := Flight(pool.strategy, picked)]);
      return Some(picked);
    }

    /** The deferred Release of ServeHTTP, on the strategy object the pick was made on. */
    method Finish(request: nat)
      requires Valid() && request in gateway.flights
      modifies this`gateway
      ensures Valid()
      ensures Enabled(old(gateway), Release(request))
      ensures gateway == Apply(old(gateway), Release(request))
    {
      StepKeepsInv(gateway, Release(request));
      var flight := gateway.flights[request];
      gateway := gateway.(
        objects := gateway.objects[flight.strategy := AfterRelease(gateway.objects[flight.strategy], flight.target)],
        flights := gateway.flights - {request});
    }
  }
}
