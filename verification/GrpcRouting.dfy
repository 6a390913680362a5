/** gRPC calls: the route the policy checks use, and the backend map the proxy resolves against. */
module GrpcRouting {
  import opened Options
  import opened Text
  import opened HttpMatching

  /** strings.LastIndex(s, "/"). */
  function LastSlash(s: string): (i: int)
    ensures -1 <= i < |s|
    ensures i >= 0 ==> s[i] == '/'
    ensures forall j :: i < j < |s| ==> s[j] != '/'
  {
    if s == "" then -1
    else if s[|s| - 1] == '/' then |s| - 1
    else LastSlash(s[..|s| - 1])
  }

  /** The full method without its last segment. */
  function ServiceOf(fullMethod: string): string {
    var i := LastSlash(fullMethod);
    if i > 0 then fullMethod[..i] else fullMethod
  }

  /** The full method names a method m of a service. */
  ghost predicate Calls(fullMethod: string, service: string, m: string) {
    service != "" && '/' !in m && fullMethod == service + "/" + m
  }

  ghost predicate NamesNoMethod(fullMethod: string) {
    forall i :: 0 < i < |fullMethod| ==> fullMethod[i] != '/'
  }

  /** A call is routed by its service; a name without a slash past its first character by itself. */
  lemma ServiceMeaning(fullMethod: string)
    ensures forall s, m :: Calls(fullMethod, s, m) ==> ServiceOf(fullMethod) == s
    ensures NamesNoMethod(fullMethod) ==> ServiceOf(fullMethod) == fullMethod
  {
    forall s, m | Calls(fullMethod, s, m)
      ensures ServiceOf(fullMethod) == s
    {
      assert fullMethod[|s|] == '/' && fullMethod[..|s|] == s;
      assert forall j :: |s| < j < |fullMethod| ==> fullMethod[j] == m[j - |s| - 1];
    }
  }

  predicate IsGrpc(rt: Route) {
    rt.protocol == "grpc" && rt.enabled
  }

  /** How many bytes of the service name a route covers, or -1 if it does not apply. */
  function Reach(rt: Route, service: string): int {
    if IsGrpc(rt) && HasPrefix(service, rt.path) then |rt.path| else -1
  }

  function Reaches(routes: seq<Route>, service: string): seq<int> {
    seq(|routes|, i requires 0 <= i < |routes| => Reach(routes[i], service))
  }

  /** The first route with the longest path among those that apply. */
  function PolicyRoute(routes: seq<Route>, service: string): (best: Option<nat>)
    ensures best.None? <==> forall i :: 0 <= i < |routes| ==> Reach(routes[i], service) < 0
    ensures best.Some? ==>
      && best.value < |routes| && 0 <= Reach(routes[best.value], service)
      && (forall i :: 0 <= i < |routes| ==> Reach(routes[i], service) <= Reach(routes[best.value], service))
      && (forall i :: 0 <= i < best.value ==> Reach(routes[i], service) < Reach(routes[best.value], service))
  {
    var reaches := Reaches(routes, service);
    assert forall i :: 0 <= i < |routes| ==> reaches[i] == Reach(routes[i], service);
    FirstMax(reaches)
  }

  /** An enabled gRPC route whose path starts the service's name. */
  ghost predicate Covers(rt: Route, service: string) {
    rt.protocol == "grpc" && rt.enabled && rt.path <= service
  }

  /** The policy route is the first one with the longest path that covers the service. */
  lemma PolicyMeaning(routes: seq<Route>, service: string)
    ensures var best := PolicyRoute(routes, service);
      && (best.None? <==> forall i :: 0 <= i < |routes| ==> !Covers(routes[i], service))
      && (best.Some? ==>
          && Covers(routes[best.value], service)
          && forall i :: 0 <= i < |routes| && Covers(routes[i], service) ==>
               |routes[i].path| < |routes[best.value].path|
               || (routes[i].path == routes[best.value].path && best.value <= i))
  {
    var best := PolicyRoute(routes, service);
    forall i | 0 <= i < |routes|
      ensures Covers(routes[i], service) <==> Reach(routes[i], service) >= 0
      ensures Covers(routes[i], service) ==>
        Reach(routes[i], service) == |routes[i].path| && routes[i].path == service[..|routes[i].path|]
    {
    }
  }

  method MatchRoute(fullMethod: string, routes: seq<Route>) returns (best: Option<nat>)
    ensures best == PolicyRoute(routes, ServiceOf(fullMethod))
    ensures forall s, m :: Calls(fullMethod, s, m) ==> best == PolicyRoute(routes, s)
    ensures NamesNoMethod(fullMethod) ==> best == PolicyRoute(routes, fullMethod)
  {
    ServiceMeaning(fullMethod);
    var service := ServiceOf(fullMethod);
    best := None;
    var bestLen := -1;
    var i := 0;
    while i < |routes|
      invariant 0 <= i <= |routes|
      invariant best == FirstMax(Reaches(routes[..i], service))
      invariant bestLen == if best.None? then -1 else Reach(routes[best.value], service)
    {
      assert Reaches(routes[..i + 1], service)[..i] == Reaches(routes[..i], service);
      var rt := routes[i];
      if rt.protocol == "grpc" && rt.enabled && HasPrefix(service, rt.path) && |rt.path| > bestLen {
        best := Some(i);
        bestLen := |rt.path|;
      }
      i := i + 1;
    }
    assert routes[..i] == routes;
  }

  // ---------------------------------------------------------------- the backend map

  /** Each path maps to the rewritten upstream of the last enabled gRPC route with that path. */
  function Backends(routes: seq<Route>, rewrite: string -> string): map<string, string> {
    if routes == [] then map[]
    else
      var before, rt := Backends(routes[..|routes| - 1], rewrite), routes[|routes| - 1];
      if IsGrpc(rt) then before[rt.path := rewrite(rt.upstreamUrl)] else before
  }

  method BuildGRPCBackends(routes: seq<Route>, rewrite: string -> string) returns (out: map<string, string>)
    ensures out == Backends(routes, rewrite)
  {
    out := map[];
    var i := 0;
    while i < |routes|
      invariant 0 <= i <= |routes|
      invariant out == Backends(routes[..i], rewrite)
    {
      assert routes[..i + 1][..i] == routes[..i];
      var rt := routes[i];
      if rt.protocol == "grpc" && rt.enabled {
        out := out[rt.path := rewrite(rt.upstreamUrl)];
      }
      i := i + 1;
    }
    assert routes[..i] == routes;
  }

  /** j is the last enabled gRPC route with the given path. */
  ghost predicate LastWithPath(routes: seq<Route>, path: string, j: nat) {
    && j < |routes| && IsGrpc(routes[j]) && routes[j].path == path
    && forall i :: j < i < |routes| ==> !(IsGrpc(routes[i]) && routes[i].path == path)
  }

  /** The keys are the paths of the enabled gRPC routes. */
  lemma {:induction false} BackendKeys(routes: seq<Route>, rewrite: string -> string, path: string)
    ensures path in Backends(routes, rewrite) <==>
      exists i :: 0 <= i < |routes| && IsGrpc(routes[i]) && routes[i].path == path
  {
    if routes != [] {
      var init, last := routes[..|routes| - 1], routes[|routes| - 1];
      BackendKeys(init, rewrite, path);
      assert forall i :: 0 <= i < |init| ==> init[i] == routes[i];
    }
  }

  /** The entry of a path is the last route's. */
  lemma {:induction false} BackendsHoldLastRoutes(routes: seq<Route>, rewrite: string -> string, path: string, j: nat)
    requires LastWithPath(routes, path, j)
    ensures path in Backends(routes, rewrite) && Backends(routes, rewrite)[path] == rewrite(routes[j].upstreamUrl)
  {
    var last := |routes| - 1;
    if j < last {
      assert !(IsGrpc(routes[last]) && routes[last].path == path);
      BackendsHoldLastRoutes(routes[..last], rewrite, path, j);
    }
  }

  lemma {:induction false} LastRouteExists(routes: seq<Route>, k: nat) returns (j: nat)
    requires k < |routes| && IsGrpc(routes[k])
    ensures k <= j && LastWithPath(routes, routes[k].path, j)
    decreases |routes| - k
  {
    if i :| k < i < |routes| && IsGrpc(routes[i]) && routes[i].path == routes[k].path {
      j := LastRouteExists(routes, i);
    } else {
      j := k;
    }
  }

  /** The address of the longest prefix of the service, or no address. */
  ghost predicate Resolves(backends: map<string, string>, service: string, best: string) {
    || (best == "" && forall p :: p in backends ==> !HasPrefix(service, p))
    || exists p :: p in backends && LongestPrefix(backends, service, p) && best == backends[p]
  }

  ghost predicate LongestPrefix(backends: map<string, string>, service: string, p: string) {
    && p in backends && HasPrefix(service, p)
    && forall q :: q in backends && HasPrefix(service, q) ==> |q| <= |p|
  }

  /** The map is walked in an order that differs from run to run; the answer does not. */
  method ResolveGRPCBackend(fullMethod: string, backends: map<string, string>) returns (best: string, ok: bool)
    ensures Resolves(backends, ServiceOf(fullMethod), best)
    ensures forall s, m :: Calls(fullMethod, s, m) ==> Resolves(backends, s, best)
    ensures NamesNoMethod(fullMethod) ==> Resolves(backends, fullMethod, best)
    ensures ok <==> best != ""
  {
    ServiceMeaning(fullMethod);
    var service := ServiceOf(fullMethod);
    best := "";
    var bestLen := -1;
    var left := backends.Keys;
    ghost var from := "";
    while left != {}
      invariant left <= backends.Keys
      invariant bestLen == -1 ==> best == "" && forall p :: p in backends && p !in left ==> !HasPrefix(service, p)
      invariant bestLen != -1 ==>
        && from in backends && HasPrefix(service, from) && |from| == bestLen && best == backends[from]
        && forall p :: p in backends && p !in left && HasPrefix(service, p) ==> |p| <= bestLen
      decreases |left|
    {
      var prefix :| prefix in left;
      left := left - {prefix};
      if HasPrefix(service, prefix) && |prefix| > bestLen {
        best, bestLen := backends[prefix], |prefix|;
        from := prefix;
      }
    }
    if bestLen != -1 {
      assert LongestPrefix(backends, service, from);
    }
    return best, best != "";
  }

  lemma ResolutionIsUnique(backends: map<string, string>, service: string, a: string, b: string)
    requires Resolves(backends, service, a) && Resolves(backends, service, b)
    ensures a == b
  {
    forall p, q | LongestPrefix(backends, service, p) && LongestPrefix(backends, service, q)
      ensures p == q
    {
      assert p == service[..|p|] && q == service[..|q|];
    }
  }

  // ---------------------------------------------------------------- agreement

  /** Policy checks and proxying look at the same route: found by both or by neither, and with its upstream. */
  ghost predicate Agree(routes: seq<Route>, rewrite: string -> string, service: string, addr: string) {
    var policy := PolicyRoute(routes, service);
    && (policy.Some? <==> addr != "")
    && (policy.Some? ==> addr == rewrite(routes[policy.value].upstreamUrl))
  }

  lemma BackendOfPolicyRoute(routes: seq<Route>, rewrite: string -> string, service: string, addr: string)
    requires Resolves(Backends(routes, rewrite), service, addr)
    ensures var policy := PolicyRoute(routes, service);
      && (policy.None? ==> addr == "")
      && (policy.Some? ==> forall j: nat :: LastWithPath(routes, routes[policy.value].path, j) ==>
            addr == rewrite(routes[j].upstreamUrl))
  {
    var backends, policy := Backends(routes, rewrite), PolicyRoute(routes, service);
    if policy.None? {
      forall p | p in backends
        ensures !HasPrefix(service, p)
      {
        BackendKeys(routes, rewrite, p);
        var i :| 0 <= i < |routes| && IsGrpc(routes[i]) && routes[i].path == p;
        assert Reach(routes[i], service) < 0;
      }
    } else {
      var path := routes[policy.value].path;
      BackendKeys(routes, rewrite, path);
      forall q | q in backends && HasPrefix(service, q)
        ensures |q| <= |path|
      {
        BackendKeys(routes, rewrite, q);
        var i :| 0 <= i < |routes| && IsGrpc(routes[i]) && routes[i].path == q;
        assert Reach(routes[i], service) == |q|;
      }
      assert LongestPrefix(backends, service, path);
      ResolutionIsUnique(backends, service, addr, backends[path]);
      forall j: nat | LastWithPath(routes, path, j)
        ensures addr == rewrite(routes[j].upstreamUrl)
      {
        BackendsHoldLastRoutes(routes, rewrite, path, j);
      }
    }
  }

  /**
   * Exactly when the two agree: no route applies, or the first and the last enabled route on the
   * longest matching path have the same rewritten upstream and it is not empty.
   */
  lemma AgreeIff(routes: seq<Route>, rewrite: string -> string, service: string, addr: string)
    requires Resolves(Backends(routes, rewrite), service, addr)
    ensures var policy := PolicyRoute(routes, service);
      Agree(routes, rewrite, service, addr) <==>
        policy.Some? ==>
          && rewrite(routes[policy.value].upstreamUrl) != ""
          && forall j: nat :: LastWithPath(routes, routes[policy.value].path, j) ==>
               rewrite(routes[j].upstreamUrl) == rewrite(routes[policy.value].upstreamUrl)
  {
    BackendOfPolicyRoute(routes, rewrite, service, addr);
    var policy := PolicyRoute(routes, service);
    if policy.Some? {
      assert Reach(routes[policy.value], service) >= 0;
      var j := LastRouteExists(routes, policy.value);
    }
  }

  /** With distinct paths and non-empty upstreams, policy and proxy always agree. */
  lemma DistinctPathsAgree(routes: seq<Route>, rewrite: string -> string, service: string, addr: string)
    requires Resolves(Backends(routes, rewrite), service, addr)
    requires forall i, j :: 0 <= i < j < |routes| && IsGrpc(routes[i]) && IsGrpc(routes[j]) ==>
      routes[i].path != routes[j].path
    requires forall i :: 0 <= i < |routes| && IsGrpc(routes[i]) ==> rewrite(routes[i].upstreamUrl) != ""
    ensures Agree(routes, rewrite, service, addr)
  {
    AgreeIff(routes, rewrite, service, addr);
    var policy := PolicyRoute(routes, service);
    if policy.Some? {
      var k := policy.value;
      assert Reach(routes[k], service) >= 0;
      forall j: nat | LastWithPath(routes, routes[k].path, j)
        ensures j == k
      {
      }
    }
  }

  /** Two enabled routes on one path: the policy of the first is enforced, the upstream of the last is called. */
  lemma DuplicatePathsDisagree(first: Route, second: Route, rewrite: string -> string, addr: string)
    requires IsGrpc(first) && IsGrpc(second) && first.path == second.path
    requires rewrite(first.upstreamUrl) != rewrite(second.upstreamUrl)
    requires Resolves(Backends([first, second], rewrite), first.path, addr)
    ensures PolicyRoute([first, second], first.path) == Some(0)
    ensures addr == rewrite(second.upstreamUrl)
    ensures !Agree([first, second], rewrite, first.path, addr)
  {
    var routes := [first, second];
    assert routes[0] == first && routes[1] == second;
    assert Reach(routes[0], first.path) == Reach(routes[1], first.path) == |first.path|;
    assert LastWithPath(routes, first.path, 1);
    BackendOfPolicyRoute(routes, rewrite, first.path, addr);
  }
}
