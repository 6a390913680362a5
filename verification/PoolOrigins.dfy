/** Which configuration each request was balanced by, over every interleaving of reloads and requests. */
module PoolOrigins {
  import opened Options
  import opened LeastConnBalancing
  import opened RoundRobinBalancing

  /** The upstream configuration behind each pool: under construction, published, resolved, and picked from. */
  datatype Trace = Trace(
    building: map<string, Upstream>,
    snapshot: map<string, Upstream>,
    resolved: map<nat, Upstream>,
    flights: map<nat, Upstream>)

  const NOTHING := Trace(map[], map[], map[], map[])

  /** A request resolves what is published at that moment and keeps it, whatever is published later. */
  function Traced(t: Trace, step: Step): Trace {
    match step
    case BeginReload => t.(building := map[])
    case BuildPool(u, _) => t.(building := t.building[u.id := u])
    case Publish => t.(snapshot := t.building)
    case Resolve(request, upstream) =>
      if upstream in t.snapshot then t.(resolved := t.resolved[request := t.snapshot[upstream]]) else t
    case PickTarget(request, _) =>
      if request in t.resolved
      then t.(resolved := t.resolved - {request}, flights := t.flights[request := t.resolved[request]]) else t
    case Release(request) => t.(flights := t.flights - {request})
  }

  ghost function TraceOf(t: Trace, steps: seq<Step>): Trace
    decreases |steps|
  {
    if steps == [] then t else TraceOf(Traced(t, steps[0]), steps[1..])
  }

  /** The pool is the one this configuration calls for, with the kind of strategy it names. */
  ghost predicate BuiltFrom(objects: map<nat, Strategy>, pool: Pool, u: Upstream) {
    && (forall t :: t in pool.targets <==> t in PoolTargets(u))
    && pool.strategy in objects
    && (objects[pool.strategy].LeastConnStrategy? <==> u.lbStrategy == "least_conn")
  }

  ghost predicate AllBuilt<K(!new)>(objects: map<nat, Strategy>, pools: map<K, Pool>, origins: map<K, Upstream>) {
    forall k :: k in pools ==> k in origins && BuiltFrom(objects, pools[k], origins[k])
  }

  ghost predicate OriginsOk(g: Gateway, t: Trace) {
    && AllBuilt(g.objects, g.building, t.building)
    && AllBuilt(g.objects, g.snapshot, t.snapshot)
    && AllBuilt(g.objects, g.resolved, t.resolved)
    && FlightsOk(g.flights, t.flights)
  }

  ghost predicate FlightsOk(flights: map<nat, Flight>, origins: map<nat, Upstream>) {
    forall r :: r in flights ==> r in origins && flights[r].target in PoolTargets(origins[r])
  }

  /** Objects are never removed and never change their kind. */
  ghost predicate SameKinds(objects: map<nat, Strategy>, more: map<nat, Strategy>) {
    forall o :: o in objects ==> o in more && (more[o].LeastConnStrategy? <==> objects[o].LeastConnStrategy?)
  }

  lemma KindsKeepPools<K(!new)>(objects: map<nat, Strategy>, more: map<nat, Strategy>, pools: map<K, Pool>,
                                origins: map<K, Upstream>)
    requires AllBuilt(objects, pools, origins) && SameKinds(objects, more)
    ensures AllBuilt(more, pools, origins)
  {
    hide PoolTargets;
  }

  lemma KindsStay(g: Gateway, step: Step)
    requires Enabled(g, step)
    ensures SameKinds(g.objects, Apply(g, step).objects)
  {
    hide FilterHealthy, PickIndex, LeastIndex, PoolTargets;
  }

  lemma AddedPoolIsBuilt(objects: map<nat, Strategy>, pools: map<string, Pool>, origins: map<string, Upstream>,
                         id: string, pool: Pool, u: Upstream)
    requires AllBuilt(objects, pools, origins) && BuiltFrom(objects, pool, u)
    ensures AllBuilt(objects, pools[id := pool], origins[id := u])
  {
    hide BuiltFrom;
  }

  lemma NewPoolIsBuilt(g: Gateway, step: Step)
    requires Enabled(g, step) && step.BuildPool?
    ensures step.u.id in Apply(g, step).building
    ensures BuiltFrom(Apply(g, step).objects, Apply(g, step).building[step.u.id], step.u)
    ensures Apply(g, step).building == g.building[step.u.id := Apply(g, step).building[step.u.id]]
  {
    hide PoolTargets;
  }

  lemma BuildKeepsOrigins(g: Gateway, t: Trace, step: Step)
    requires OriginsOk(g, t) && Enabled(g, step) && step.BuildPool?
    ensures AllBuilt(Apply(g, step).objects, Apply(g, step).building, Traced(t, step).building)
  {
    hide Apply, Enabled, BuiltFrom, SameKinds, AllBuilt, FlightsOk;
    var g' := Apply(g, step);
    KindsStay(g, step);
    KindsKeepPools(g.objects, g'.objects, g.building, t.building);
    NewPoolIsBuilt(g, step);
    AddedPoolIsBuilt(g'.objects, g.building, t.building, step.u.id, g'.building[step.u.id], step.u);
  }

  lemma PickedIsFromPool(objects: map<nat, Strategy>, pool: Pool, u: Upstream, healthy: seq<bool>)
    requires BuiltFrom(objects, pool, u) && FilterHealthy(pool.targets, healthy) != []
    ensures var offered := FilterHealthy(pool.targets, healthy);
      offered[PickIndex(objects[pool.strategy], offered)] in PoolTargets(u)
  {
    OfferedAreHealthy(pool.targets, healthy);
    hide FilterHealthy, PoolTargets;
    var offered := FilterHealthy(pool.targets, healthy);
    var picked := offered[PickIndex(objects[pool.strategy], offered)];
    hide PickIndex;
    assert picked in offered;
    assert picked in pool.targets;
  }

  lemma PickKeepsFlights(g: Gateway, t: Trace, step: Step)
    requires OriginsOk(g, t) && Enabled(g, step) && step.PickTarget?
    ensures FlightsOk(Apply(g, step).flights, Traced(t, step).flights)
  {
    hide FilterHealthy, PickIndex, PoolTargets, AfterPick, BuiltFrom;
    var pool := g.resolved[step.request];
    if FilterHealthy(pool.targets, step.healthy) != [] {
      PickedIsFromPool(g.objects, pool, t.resolved[step.request], step.healthy);
    }
  }

  lemma FewerPoolsAreBuilt<K(!new)>(objects: map<nat, Strategy>, pools: map<K, Pool>, origins: map<K, Upstream>, k: K)
    requires AllBuilt(objects, pools, origins)
    ensures AllBuilt(objects, pools - {k}, origins - {k})
  {
    hide BuiltFrom;
  }

  lemma StepKeepsOrigins(g: Gateway, t: Trace, step: Step)
    requires OriginsOk(g, t) && Enabled(g, step)
    ensures OriginsOk(Apply(g, step), Traced(t, step))
  {
    hide PoolTargets, BuiltFrom, FilterHealthy, PickIndex, AfterPick, AfterRelease, NewStrategy, SameKinds;
    var g' := Apply(g, step);
    KindsStay(g, step);
    KindsKeepPools(g.objects, g'.objects, g.building, t.building);
    KindsKeepPools(g.objects, g'.objects, g.snapshot, t.snapshot);
    KindsKeepPools(g.objects, g'.objects, g.resolved, t.resolved);
    match step
    case BuildPool(_, _) =>
      hide AllBuilt, FlightsOk;
      BuildKeepsOrigins(g, t, step);
    case PickTarget(request, _) =>
      PickKeepsFlights(g, t, step);
      FewerPoolsAreBuilt(g'.objects, g.resolved, t.resolved, request);
      assert request in t.resolved;
      hide AllBuilt, FlightsOk;
    case _ =>
  }

  lemma {:induction false} RunKeepsOrigins(g: Gateway, t: Trace, steps: seq<Step>, g': Gateway)
    requires OriginsOk(g, t) && Run(g, steps, g')
    ensures OriginsOk(g', TraceOf(t, steps))
    decreases |steps|
  {
    hide OriginsOk, Apply, Enabled, Traced;
    if steps != [] {
      StepKeepsOrigins(g, t, steps[0]);
      RunKeepsOrigins(Apply(g, steps[0]), Traced(t, steps[0]), steps[1..], g');
    }
  }

  /**
   * Over every interleaving: a request in flight was sent to a target that was enabled in the very
   * configuration it resolved, or to the upstream's own address when that configuration enabled none.
   */
  lemma RequestsGoToEnabledTargets(steps: seq<Step>, g: Gateway, request: nat)
    requires Run(INITIAL, steps, g) && request in g.flights
    ensures var t := TraceOf(NOTHING, steps);
      && request in t.flights
      && var u, target := t.flights[request], g.flights[request].target;
         || EnabledAs(u.targets, target)
         || ((forall r :: r in u.targets ==> !r.enabled) && u.targetUrl != "" && target.url == u.targetUrl)
  {
    hide Run, TraceOf;
    RunKeepsOrigins(INITIAL, NOTHING, steps, g);
    PoolMeaning(TraceOf(NOTHING, steps).flights[request], g.flights[request].target);
  }

  /** A request that resolved a least_conn upstream goes where the fewest requests are in flight. */
  lemma LeastConnIsHonoured(steps: seq<Step>, g: Gateway, request: nat, healthy: seq<bool>)
    requires Run(INITIAL, steps, g) && Enabled(g, PickTarget(request, healthy))
    requires request in TraceOf(NOTHING, steps).resolved
    requires TraceOf(NOTHING, steps).resolved[request].lbStrategy == "least_conn"
    ensures var o, pool := g.resolved[request].strategy, g.resolved[request].targets;
      var g' := Apply(g, PickTarget(request, healthy));
      (exists i: nat :: i < |pool| && SaidHealthy(healthy, i)) ==>
        && request in g'.flights && g'.flights[request].strategy == o
        && forall i: nat :: i < |pool| && SaidHealthy(healthy, i) ==>
             |Outstanding(g.flights, o, g'.flights[request].target.id)| <= |Outstanding(g.flights, o, pool[i].id)|
  {
    RunKeepsOrigins(INITIAL, NOTHING, steps, g);
    RunKeepsInv(INITIAL, steps, g);
    hide Run, TraceOf, Inv, Outstanding;
    assert BuiltFrom(g.objects, g.resolved[request], TraceOf(NOTHING, steps).resolved[request]);
    PickIsLeastLoaded(g, request, healthy);
    OfferedAreHealthy(g.resolved[request].targets, healthy);
    hide FilterHealthy, PickIndex, AfterPick, LeastIndex;
    var pool := g.resolved[request].targets;
    var offered := FilterHealthy(pool, healthy);
    assert forall i: nat :: i < |pool| && SaidHealthy(healthy, i) ==> pool[i] in offered;
  }

  // ---------------------------------------------------------------- one object across reloads

  /** The upstream is configured with least_conn throughout. */
  ghost predicate AlwaysLeastConn(steps: seq<Step>, id: string) {
    forall i :: 0 <= i < |steps| && steps[i].BuildPool? && steps[i].u.id == id ==> steps[i].u.lbStrategy == "least_conn"
  }

  function ObjectOf(g: Gateway, id: string): Option<nat> {
    if id in g.strategies then Some(g.strategies[id]) else None
  }

  /** The upstream's pools, and no others, are on its object. */
  ghost predicate PoolsOn<K(!new)>(pools: map<K, Pool>, origins: map<K, Upstream>, id: string, o: Option<nat>) {
    forall k :: k in pools && k in origins ==> (o == Some(pools[k].strategy) <==> origins[k].id == id)
  }

  ghost predicate FlightsOn(flights: map<nat, Flight>, origins: map<nat, Upstream>, id: string, o: Option<nat>) {
    forall r :: r in flights && r in origins ==> (o == Some(flights[r].strategy) <==> origins[r].id == id)
  }

  /** The object exists, is of the right kind, and belongs to no other upstream. */
  ghost predicate Owned(g: Gateway, id: string, o: Option<nat>) {
    && (o.Some? ==> o.value in g.objects && g.objects[o.value].LeastConnStrategy?)
    && forall other :: other in g.strategies && other != id ==> o != Some(g.strategies[other])
  }

  /** Every pool and every request of the upstream is on its one strategy object, and nothing else is. */
  ghost predicate OneObject(g: Gateway, t: Trace, id: string) {
    var o := ObjectOf(g, id);
    && Owned(g, id, o)
    && PoolsOn(g.building, t.building, id, o) && PoolsOn(g.snapshot, t.snapshot, id, o)
    && PoolsOn(g.resolved, t.resolved, id, o) && FlightsOn(g.flights, t.flights, id, o)
  }

  /** From one object to the next: kept once there is one, and new when it is made. */
  ghost predicate Succeeds(objects: map<nat, Strategy>, o: Option<nat>, o': Option<nat>) {
    (o.Some? ==> o' == o) && (o.None? && o'.Some? ==> o'.value !in objects)
  }

  /** A rebuilt pool gets the upstream's object, which is created only when there is none. */
  lemma BuildKeepsObject(g: Gateway, step: Step, id: string)
    requires Enabled(g, step) && step.BuildPool? && (step.u.id == id ==> step.u.lbStrategy == "least_conn")
    requires Owned(g, id, ObjectOf(g, id)) && RefsExist(g)
    ensures var o, g' := ObjectOf(g, id), Apply(g, step);
      var o' := ObjectOf(g', id);
      && Succeeds(g.objects, o, o') && Owned(g', id, o')
      && step.u.id in g'.building
      && (o' == Some(g'.building[step.u.id].strategy) <==> step.u.id == id)
      && g'.building == g.building[step.u.id := g'.building[step.u.id]]
  {
    hide PoolTargets, PoolsExist;
  }

  lemma MorePoolsOn(pools: map<string, Pool>, origins: map<string, Upstream>, id: string, o: Option<nat>, u: Upstream,
                    pool: Pool)
    requires PoolsOn(pools, origins, id, o) && (o == Some(pool.strategy) <==> u.id == id)
    requires forall k :: k in pools ==> k in origins
    ensures PoolsOn(pools[u.id := pool], origins[u.id := u], id, o)
  {
  }

  lemma SamePoolsOn<K(!new)>(objects: map<nat, Strategy>, pools: map<K, Pool>, origins: map<K, Upstream>, id: string,
                             o: Option<nat>, o': Option<nat>)
    requires PoolsOn(pools, origins, id, o) && Succeeds(objects, o, o') && PoolsExist(objects.Keys, pools)
    ensures PoolsOn(pools, origins, id, o')
  {
  }

  lemma SameFlightsOn(g: Gateway, origins: map<nat, Upstream>, id: string, o: Option<nat>, o': Option<nat>)
    requires FlightsOn(g.flights, origins, id, o) && Succeeds(g.objects, o, o') && RefsExist(g)
    ensures FlightsOn(g.flights, origins, id, o')
  {
    hide PoolsExist;
  }

  lemma BuildKeepsOneObject(g: Gateway, t: Trace, step: Step, id: string)
    requires OriginsOk(g, t) && RefsExist(g) && OneObject(g, t, id) && Enabled(g, step) && step.BuildPool?
    requires step.u.id == id ==> step.u.lbStrategy == "least_conn"
    ensures OneObject(Apply(g, step), Traced(t, step), id)
  {
    var g', o := Apply(g, step), ObjectOf(g, id);
    BuildKeepsObject(g, step, id);
    assert g'.snapshot == g.snapshot && g'.resolved == g.resolved && g'.flights == g.flights;
    assert forall k :: k in g.building ==> k in t.building;
    hide Apply, Enabled, ObjectOf, OriginsOk, PoolsOn, FlightsOn, Succeeds, Owned, PoolsExist;
    var o' := ObjectOf(g', id);
    SamePoolsOn(g.objects, g.building, t.building, id, o, o');
    MorePoolsOn(g.building, t.building, id, o', step.u, g'.building[step.u.id]);
    SamePoolsOn(g.objects, g.snapshot, t.snapshot, id, o, o');
    SamePoolsOn(g.objects, g.resolved, t.resolved, id, o, o');
    SameFlightsOn(g, t.flights, id, o, o');
  }

  /** A pick consumes the resolved pool and, if a target is healthy, puts the request in flight on its object. */
  lemma PickEffect(g: Gateway, step: Step) returns (f: Flight)
    requires Enabled(g, step) && step.PickTarget?
    ensures var g' := Apply(g, step);
      && g'.strategies == g.strategies && g'.building == g.building && g'.snapshot == g.snapshot
      && g'.resolved == g.resolved - {step.request} && f.strategy == g.resolved[step.request].strategy
      && (g'.flights == g.flights || g'.flights == g.flights[step.request := f])
  {
    hide FilterHealthy, PickIndex, AfterPick;
    var g' := Apply(g, step);
    f := if step.request in g'.flights then g'.flights[step.request]
         else Flight(g.resolved[step.request].strategy, Target("", "", 0));
  }

  lemma FewerPoolsOn<K(!new)>(pools: map<K, Pool>, origins: map<K, Upstream>, id: string, o: Option<nat>, k: K)
    requires PoolsOn(pools, origins, id, o)
    ensures PoolsOn(pools - {k}, origins - {k}, id, o)
  {
  }

  lemma MoreFlightsOn(flights: map<nat, Flight>, origins: map<nat, Upstream>, id: string, o: Option<nat>, r: nat,
                      f: Flight, u: Upstream)
    requires FlightsOn(flights, origins, id, o) && (o == Some(f.strategy) <==> u.id == id) && r !in flights
    ensures FlightsOn(flights[r := f], origins[r := u], id, o) && FlightsOn(flights, origins[r := u], id, o)
  {
  }

  lemma PickKeepsOneObject(g: Gateway, t: Trace, step: Step, id: string)
    requires OriginsOk(g, t) && OneObject(g, t, id) && Enabled(g, step) && step.PickTarget?
    ensures OneObject(Apply(g, step), Traced(t, step), id)
  {
    KindsStay(g, step);
    var f := PickEffect(g, step);
    var o := ObjectOf(g, id);
    assert step.request in t.resolved && step.request in g.resolved && step.request !in g.flights;
    assert o == Some(f.strategy) <==> t.resolved[step.request].id == id;
    hide Apply, Enabled, AllBuilt, FlightsOk, PoolsOn, FlightsOn;
    FewerPoolsOn(g.resolved, t.resolved, id, o, step.request);
    MoreFlightsOn(g.flights, t.flights, id, o, step.request, f, t.resolved[step.request]);
  }

  lemma StepKeepsOneObject(g: Gateway, t: Trace, step: Step, id: string)
    requires OriginsOk(g, t) && RefsExist(g) && OneObject(g, t, id) && Enabled(g, step) && AlwaysLeastConn([step], id)
    ensures OneObject(Apply(g, step), Traced(t, step), id)
  {
    assert step == [step][0];
    if step.BuildPool? {
      BuildKeepsOneObject(g, t, step, id);
    } else if step.PickTarget? {
      PickKeepsOneObject(g, t, step, id);
    } else {
      KindsStay(g, step);
      hide AfterRelease, FlightsOk, BuiltFrom, PoolsExist, RefsExist;
    }
  }

  lemma {:induction false} RunKeepsOneObject(g: Gateway, t: Trace, steps: seq<Step>, g': Gateway, id: string)
    requires OriginsOk(g, t) && RefsExist(g) && OneObject(g, t, id) && Run(g, steps, g') && AlwaysLeastConn(steps, id)
    ensures OriginsOk(g', TraceOf(t, steps)) && OneObject(g', TraceOf(t, steps), id)
    decreases |steps|
  {
    hide OriginsOk, OneObject, RefsExist, Apply, Enabled, Traced;
    if steps != [] {
      assert AlwaysLeastConn([steps[0]], id) && AlwaysLeastConn(steps[1..], id);
      StepKeepsOrigins(g, t, steps[0]);
      StepKeepsRefs(g, steps[0]);
      StepKeepsOneObject(g, t, steps[0], id);
      RunKeepsOneObject(Apply(g, steps[0]), Traced(t, steps[0]), steps[1..], g', id);
    }
  }

  /** The requests in flight to a target of the upstream, whichever snapshot they resolved. */
  ghost function InFlight(g: Gateway, t: Trace, id: string, target: string): set<nat> {
    set r | r in g.flights && r in t.flights && t.flights[r].id == id && g.flights[r].target.id == target
  }

  /**
   * As long as an upstream is configured with least_conn, every reload keeps its strategy object: the counts a pick
   * compares are the requests in flight to the upstream's targets, also those balanced under earlier configurations.
   */
  lemma PicksSeeEveryRequest(steps: seq<Step>, g: Gateway, request: nat, target: string)
    requires Run(INITIAL, steps, g) && request in g.resolved
    requires request in TraceOf(NOTHING, steps).resolved
    requires AlwaysLeastConn(steps, TraceOf(NOTHING, steps).resolved[request].id)
    ensures var t := TraceOf(NOTHING, steps);
      var id, o := t.resolved[request].id, g.resolved[request].strategy;
      && o in g.objects && g.objects[o].LeastConnStrategy?
      && Count(g.objects[o].counts, target) == |InFlight(g, t, id, target)|
  {
    var t := TraceOf(NOTHING, steps);
    var id, o := t.resolved[request].id, g.resolved[request].strategy;
    RunKeepsOneObject(INITIAL, NOTHING, steps, g, id);
    hide AlwaysLeastConn;
    assert ObjectOf(g, id) == Some(o);
    assert forall r :: r in g.flights ==> r in t.flights;
    hide TraceOf, PoolsOn, OriginsOk;
    assert InFlight(g, t, id, target) == Outstanding(g.flights, o, target);
    ConnectionsAreConserved(steps, g, o, target);
  }

  // ---------------------------------------------------------------- round robin on one object

  /** A strategy object after n picks from the same targets. */
  function AfterPicks(s: Strategy, pool: seq<Target>, n: nat): Strategy
    requires pool != []
  {
    if n == 0 then s else AfterPick(AfterPicks(s, pool, n - 1), pool)
  }

  /** The k-th pick of any other upstream is the one weighted round robin calls for, so its fairness results apply. */
  lemma {:induction false} RoundRobinTakesTurns(c: nat, pool: seq<Target>, k: nat)
    requires 2 <= |pool| && c < WRAP
    ensures AfterPicks(RoundRobinStrategy(c), pool, k) == RoundRobinStrategy((c + k) % WRAP)
    ensures PickIndex(AfterPicks(RoundRobinStrategy(c), pool, k), pool) == PickedPosition(Layout(pool), c, k + 1)
  {
    if k > 0 {
      RoundRobinTakesTurns(c, pool, k - 1);
      NextInRing(c + k - 1, WRAP);
    } else {
      DivModUnique(c, 0, c, WRAP);
    }
    NextInRing(c + k, WRAP);
  }

  lemma NextInRing(x: nat, n: nat)
    requires 1 < n
    ensures (x % n + 1) % n == (x + 1) % n
  {
    var q := x / n;
    assert x + 1 == q * n + (x % n + 1);
    ModPlusMultiple(x % n + 1, q, n);
  }
}
