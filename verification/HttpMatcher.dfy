/**
 * HTTP route matching. Paths are byte strings: each character of a path stands for one byte,
 * so that lengths are those of the scorer.
 */
module HttpMatching {
  import opened Options
  import opened Sorting
  import opened Text

  datatype Route = Route(
    protocol: string, enabled: bool, methods: seq<string>, path: string, matchType: string, upstreamUrl: string)

  // ---------------------------------------------------------------- methods

  ghost predicate AcceptsMethod(methods: seq<string>, reqMethod: string) {
    || methods == [] || reqMethod == "" || reqMethod == "OPTIONS"
    || exists m :: m in methods && (EqualFold(m, "ANY") || EqualFold(m, "*") || EqualFold(m, reqMethod))
  }

  method MatchMethod(methods: seq<string>, reqMethod: string) returns (ok: bool)
    ensures ok <==> AcceptsMethod(methods, reqMethod)
  {
    if |methods| == 0 || reqMethod == "" || reqMethod == "OPTIONS" {
      return true;
    }
    var i := 0;
    while i < |methods|
      invariant 0 <= i <= |methods|
      invariant forall j :: 0 <= j < i ==>
        !EqualFold(methods[j], "ANY") && !EqualFold(methods[j], "*") && !EqualFold(methods[j], reqMethod)
    {
      var m := methods[i];
      if EqualFold(m, "ANY") || EqualFold(m, "*") || EqualFold(m, reqMethod) {
        assert m in methods;
        return true;
      }
      i := i + 1;
    }
    return false;
  }

  /** A listed method is accepted in any case, and so are preflight requests; an unlisted one is not. */
  lemma MethodMeaning(methods: seq<string>, reqMethod: string)
    requires Ascii(reqMethod) && forall m :: m in methods ==> Ascii(m)
    ensures AcceptsMethod(methods, reqMethod) <==>
      || |methods| == 0 || |reqMethod| == 0 || reqMethod == "OPTIONS"
      || exists m :: m in methods && ToLower(m) in {"any", "*", ToLower(reqMethod)}
  {
    assert ToLower("ANY") == "any" && ToLower("*") == "*";
    forall m | m in methods
      ensures EqualFold(m, "ANY") <==> ToLower(m) == "any"
      ensures EqualFold(m, "*") <==> ToLower(m) == "*"
      ensures EqualFold(m, reqMethod) <==> ToLower(m) == ToLower(reqMethod)
    {
      FoldingIgnoresCase(m, "ANY");
      FoldingIgnoresCase(m, "*");
      FoldingIgnoresCase(m, reqMethod);
    }
    hide ToLower, EqualFold;
  }

  // ---------------------------------------------------------------- segments

  function TrimSlashLeft(p: string): string {
    if p != "" && p[0] == '/' then TrimSlashLeft(p[1..]) else p
  }

  function TrimSlashRight(p: string): string {
    if p != "" && p[|p| - 1] == '/' then TrimSlashRight(p[..|p| - 1]) else p
  }

  /** strings.Trim(p, "/"). */
  function TrimSlashes(p: string): string {
    TrimSlashRight(TrimSlashLeft(p))
  }

  /** strings.Split with a one-character separator. */
  function Split(s: string, sep: char): (parts: seq<string>)
    ensures parts != []
  {
    if s == "" then [""]
    else
      var rest := Split(s[1..], sep);
      if s[0] == sep then [""] + rest else [[s[0]] + rest[0]] + rest[1..]
  }

  function SplitPath(p: string): seq<string> {
    var t := TrimSlashes(p);
    if t == "" then [] else Split(t, '/')
  }

  /** Splitting is undone by joining, and no part holds the separator. */
  lemma {:induction false} SplitThenJoin(s: string, sep: char)
    ensures Join(Split(s, sep), sep) == s
    ensures FreeOf(Split(s, sep), sep)
  {
    if s != "" {
      SplitThenJoin(s[1..], sep);
      var rest := Split(s[1..], sep);
      assert s == [s[0]] + s[1..];
      if s[0] == sep {
        assert Join([""] + rest, sep) == "" + [sep] + Join(rest, sep) by {
          assert ([""] + rest)[1..] == rest;
        }
        forall p | p in Split(s, sep)
          ensures sep !in p
        {
          assert p == "" || p in rest;
        }
      } else {
        var parts := [[s[0]] + rest[0]] + rest[1..];
        assert parts[1..] == rest[1..];
        if |rest| > 1 {
          assert Join(parts, sep) == [s[0]] + rest[0] + [sep] + Join(rest[1..], sep);
          assert Join(rest, sep) == rest[0] + [sep] + Join(rest[1..], sep);
          assert Join(parts, sep) == [s[0]] + Join(rest, sep);
        }
        assert rest[0] in rest;
        forall p | p in parts
          ensures sep !in p
        {
          if p != parts[0] {
            assert p in rest[1..];
            assert p in rest;
          }
        }
      }
    }
  }

  /** A pattern segment accepts a request segment: parameters take any non-empty one. */
  predicate SegmentMatches(pattern: string, segment: string) {
    if HasPrefix(pattern, ":") then segment != "" else pattern == segment
  }

  ghost predicate SegmentsMatch(patterns: seq<string>, segments: seq<string>) {
    |patterns| == |segments| && forall i :: 0 <= i < |patterns| ==> SegmentMatches(patterns[i], segments[i])
  }

  ghost predicate ParametricMatch(pattern: string, path: string) {
    SegmentsMatch(SplitPath(pattern), SplitPath(path))
  }

  method MatchParametric(pattern: string, path: string) returns (ok: bool)
    ensures ok <==> ParametricMatch(pattern, path)
  {
    var patternSegs := SplitPath(pattern);
    var pathSegs := SplitPath(path);
    if |patternSegs| != |pathSegs| {
      return false;
    }
    var i := 0;
    while i < |patternSegs|
      invariant 0 <= i <= |patternSegs|
      invariant forall j :: 0 <= j < i ==> SegmentMatches(patternSegs[j], pathSegs[j])
    {
      var pSeg, rSeg := patternSegs[i], pathSegs[i];
      if HasPrefix(pSeg, ":") {
        if rSeg == "" {
          return false;
        }
      } else if pSeg != rSeg {
        return false;
      }
      i := i + 1;
    }
    return true;
  }

  // ---------------------------------------------------------------- what a parametric match means

  ghost predicate Slashes(s: string) {
    forall i :: 0 <= i < |s| ==> s[i] == '/'
  }

  lemma {:induction false} LeftSlashesGo(before: string, core: string)
    requires Slashes(before) && (core != "" ==> core[0] != '/')
    ensures TrimSlashLeft(before + core) == core
  {
    if before == "" {
      assert before + core == core;
    } else {
      assert (before + core)[1..] == before[1..] + core;
      LeftSlashesGo(before[1..], core);
    }
  }

  lemma {:induction false} RightSlashesGo(core: string, after: string)
    requires Slashes(after) && (core != "" ==> core[|core| - 1] != '/')
    ensures TrimSlashRight(core + after) == core
  {
    if after == "" {
      assert core + after == core;
    } else {
      assert (core + after)[..|core + after| - 1] == core + after[..|after| - 1];
      RightSlashesGo(core, after[..|after| - 1]);
    }
  }

  lemma {:induction false} LeftSlashes(p: string) returns (before: string)
    ensures Slashes(before) && p == before + TrimSlashLeft(p)
    ensures TrimSlashLeft(p) != "" ==> TrimSlashLeft(p)[0] != '/'
  {
    before := "";
    if p != "" && p[0] == '/' {
      var rest := LeftSlashes(p[1..]);
      before := "/" + rest;
    }
  }

  lemma {:induction false} RightSlashes(p: string) returns (after: string)
    ensures Slashes(after) && p == TrimSlashRight(p) + after
    ensures TrimSlashRight(p) != "" ==> TrimSlashRight(p)[|TrimSlashRight(p)| - 1] != '/'
  {
    after := "";
    if p != "" && p[|p| - 1] == '/' {
      var rest := RightSlashes(p[..|p| - 1]);
      after := rest + "/";
    }
  }

  /** A joined list starts or ends with the separator exactly when its first or last part is empty. */
  lemma {:induction false} JoinEnds(parts: seq<string>, sep: char)
    requires parts != [] && FreeOf(parts, sep) && Join(parts, sep) != ""
    ensures var t := Join(parts, sep);
      (t[0] == sep <==> parts[0] == "") && (t[|t| - 1] == sep <==> parts[|parts| - 1] == "")
  {
    assert parts[0] in parts && parts[|parts| - 1] in parts;
    if |parts| > 1 {
      var rest := parts[1..];
      assert rest[|rest| - 1] == parts[|parts| - 1];
      if Join(rest, sep) != "" {
        JoinEnds(rest, sep);
      } else if |rest| > 1 {
        JoinOfSeveralHasSeparator(rest, sep);
        assert false;
      }
    }
  }

  /** The path is these parts, joined by single slashes, with any number of slashes around them. */
  ghost predicate PathOf(p: string, parts: seq<string>) {
    && parts != [] && FreeOf(parts, '/') && parts[0] != "" && parts[|parts| - 1] != ""
    && exists before, after :: Slashes(before) && Slashes(after) && p == before + Join(parts, '/') + after
  }

  lemma OnlySlashesHaveNoParts(p: string)
    ensures SplitPath(p) == [] ==> Slashes(p)
  {
    var before := LeftSlashes(p);
    var after := RightSlashes(TrimSlashLeft(p));
    assert p == before + (TrimSlashes(p) + after);
  }

  lemma SplitIsPath(p: string)
    requires SplitPath(p) != []
    ensures PathOf(p, SplitPath(p))
  {
    var t := TrimSlashes(p);
    SplitThenJoin(t, '/');
    JoinEnds(Split(t, '/'), '/');
    var before := LeftSlashes(p);
    var after := RightSlashes(TrimSlashLeft(p));
    assert p == before + t + after;
    assert t[0] == TrimSlashLeft(p)[0];
  }

  lemma PathIsSplit(p: string, parts: seq<string>)
    requires PathOf(p, parts)
    ensures SplitPath(p) == parts
  {
    var before, after :| Slashes(before) && Slashes(after) && p == before + Join(parts, '/') + after;
    var t := Join(parts, '/');
    assert t != "" by {
      if |parts| > 1 {
        JoinOfSeveralHasSeparator(parts, '/');
      }
    }
    JoinEnds(parts, '/');
    assert p == before + (t + after) && (t + after)[0] == t[0];
    LeftSlashesGo(before, t + after);
    RightSlashesGo(t, after);
    SplitThenJoin(t, '/');
    JoinIsInjective(Split(t, '/'), parts, '/');
  }

  /** Parameters take any non-empty part, other parts of the pattern themselves. */
  ghost predicate Instance(patterns: seq<string>, parts: seq<string>) {
    && |patterns| == |parts|
    && forall i :: 0 <= i < |parts| ==>
         if patterns[i] != "" && patterns[i][0] == ':' then parts[i] != "" else parts[i] == patterns[i]
  }

  /** A path matches a pattern exactly when, read in slash-free parts, it is an instance of the pattern. */
  lemma ParametricMeaning(pattern: string, path: string)
    requires ':' in pattern
    ensures ParametricMatch(pattern, path) <==>
      exists patterns, parts :: PathOf(pattern, patterns) && PathOf(path, parts) && Instance(patterns, parts)
  {
    hide PathOf;
    OnlySlashesHaveNoParts(pattern);
    SplitIsPath(pattern);
    if ParametricMatch(pattern, path) {
      SplitIsPath(path);
      assert Instance(SplitPath(pattern), SplitPath(path));
    }
    if patterns, parts :| PathOf(pattern, patterns) && PathOf(path, parts) && Instance(patterns, parts) {
      PathIsSplit(pattern, patterns);
      PathIsSplit(path, parts);
      assert SegmentsMatch(patterns, parts);
    }
  }

  // ---------------------------------------------------------------- prefixes

  predicate MatchBoundaryPrefix(patternPath: string, reqPath: string) {
    && HasPrefix(reqPath, patternPath)
    && (HasSuffix(patternPath, "/") || |reqPath| == |patternPath| || HasPrefix(reqPath[|patternPath|..], "/"))
  }

  /** The prefix stops where a segment of the request stops: a slash on one side of the cut, or the end. */
  ghost predicate EndsOnSegment(patternPath: string, reqPath: string) {
    && patternPath <= reqPath
    && var n := |patternPath|;
       n == |reqPath| || reqPath[n] == '/' || (n > 0 && reqPath[n - 1] == '/')
  }

  lemma BoundaryPrefixMeaning(patternPath: string, reqPath: string)
    ensures MatchBoundaryPrefix(patternPath, reqPath) <==> EndsOnSegment(patternPath, reqPath)
  {
    if patternPath <= reqPath {
      var n := |patternPath|;
      if n > 0 {
        assert patternPath[n - 1..] == [patternPath[n - 1]];
        assert patternPath[n - 1] == reqPath[n - 1];
      }
      if n < |reqPath| {
        assert reqPath[n..][0] == reqPath[n];
      }
    }
  }

  // ---------------------------------------------------------------- scores

  const EXACT := 1000000
  const PARAMETRIC := 500000

  ghost function MatchScore(rt: Route, path: string): int {
    if rt.path == path then EXACT + |rt.path|
    else if ':' in rt.path && ParametricMatch(rt.path, path) then PARAMETRIC + |rt.path|
    else if rt.matchType != "exact" && MatchBoundaryPrefix(rt.path, path) then |rt.path|
    else -1
  }

  ghost predicate Eligible(rt: Route, reqMethod: string) {
    rt.protocol == "http" && rt.enabled && AcceptsMethod(rt.methods, reqMethod)
  }

  ghost function Score(rt: Route, path: string, reqMethod: string): int {
    if Eligible(rt, reqMethod) then MatchScore(rt, path) else -1
  }

  ghost function Scores(routes: seq<Route>, path: string, reqMethod: string): seq<int> {
    seq(|routes|, i requires 0 <= i < |routes| => Score(routes[i], path, reqMethod))
  }

  /** The first position of the largest non-negative number. */
  function FirstMax(scores: seq<int>): (best: Option<nat>)
    ensures best.None? <==> forall i :: 0 <= i < |scores| ==> scores[i] < 0
    ensures best.Some? ==>
      && best.value < |scores| && 0 <= scores[best.value]
      && (forall i :: 0 <= i < |scores| ==> scores[i] <= scores[best.value])
      && (forall i :: 0 <= i < best.value ==> scores[i] < scores[best.value])
  {
    if scores == [] then None
    else
      var before, last := FirstMax(scores[..|scores| - 1]), scores[|scores| - 1];
      if last > (if before.None? then -1 else scores[before.value]) then Some(|scores| - 1) else before
  }

  /** The first route with the highest score, if any scores at all. */
  ghost function BestIndex(routes: seq<Route>, path: string, reqMethod: string): (best: Option<nat>)
    ensures best.None? <==> forall i :: 0 <= i < |routes| ==> Score(routes[i], path, reqMethod) < 0
    ensures best.Some? ==>
      && best.value < |routes|
      && 0 <= Score(routes[best.value], path, reqMethod)
      && (forall i :: 0 <= i < |routes| ==>
            Score(routes[i], path, reqMethod) <= Score(routes[best.value], path, reqMethod))
      && (forall i :: 0 <= i < best.value ==>
            Score(routes[i], path, reqMethod) < Score(routes[best.value], path, reqMethod))
  {
    var scores := Scores(routes, path, reqMethod);
    assert forall i :: 0 <= i < |routes| ==> scores[i] == Score(routes[i], path, reqMethod);
    FirstMax(scores)
  }

  method ComputeScore(rt: Route, path: string) returns (score: int)
    ensures score == MatchScore(rt, path)
  {
    if rt.path == path {
      return EXACT + |rt.path|;
    }
    if ':' in rt.path {
      var parametric := MatchParametric(rt.path, path);
      if parametric {
        return PARAMETRIC + |rt.path|;
      }
    }
    if rt.matchType != "exact" && MatchBoundaryPrefix(rt.path, path) {
      return |rt.path|;
    }
    return -1;
  }

  method MatchHTTP(path: string, reqMethod: string, routes: seq<Route>) returns (best: Option<nat>)
    ensures best == BestIndex(routes, path, reqMethod)
  {
    hide Score;
    best := None;
    var bestScore := -1;
    var i := 0;
    while i < |routes|
      invariant 0 <= i <= |routes|
      invariant best == FirstMax(Scores(routes[..i], path, reqMethod))
      invariant bestScore == if best.None? then -1 else Score(routes[best.value], path, reqMethod)
    {
      assert Scores(routes[..i + 1], path, reqMethod)[..i] == Scores(routes[..i], path, reqMethod);
      var rt := routes[i];
      var score := ScoreOf(rt, path, reqMethod);
      if score > bestScore {
        best := Some(i);
        bestScore := score;
      }
      i := i + 1;
    }
    assert routes[..i] == routes;
  }

  /** The guards of the loop body: a route that is skipped never beats the current best. */
  method ScoreOf(rt: Route, path: string, reqMethod: string) returns (score: int)
    ensures score == Score(rt, path, reqMethod)
  {
    if rt.protocol != "http" || !rt.enabled {
      return -1;
    }
    var accepted := MatchMethod(rt.methods, reqMethod);
    if !accepted {
      return -1;
    }
    score := ComputeScore(rt, path);
  }

  // ---------------------------------------------------------------- precedence

  /** How specifically a route matches a path. */
  datatype Kind = NoMatch | Prefix | Parametric | Exact
  {
    function Rank(): nat {
      match this
      case NoMatch => 0
      case Prefix => 1
      case Parametric => 2
      case Exact => 3
    }
  }

  ghost function KindOf(rt: Route, path: string): Kind {
    if rt.path == path then Exact
    else if ':' in rt.path && ParametricMatch(rt.path, path) then Parametric
    else if rt.matchType != "exact" && EndsOnSegment(rt.path, path) then Prefix
    else NoMatch
  }

  ghost predicate Candidate(rt: Route, path: string, reqMethod: string) {
    rt.protocol == "http" && rt.enabled && AcceptsMethod(rt.methods, reqMethod) && !KindOf(rt, path).NoMatch?
  }

  /** The documented order: more specific kind first, then the longer path. */
  ghost predicate Before(a: Route, b: Route, path: string) {
    var ra, rb := KindOf(a, path).Rank(), KindOf(b, path).Rank();
    ra > rb || (ra == rb && |a.path| > |b.path|)
  }

  /** Route k is the answer the order calls for, the first one on ties. */
  ghost predicate Preferred(routes: seq<Route>, path: string, reqMethod: string, k: nat) {
    && k < |routes| && Candidate(routes[k], path, reqMethod)
    && (forall i :: 0 <= i < |routes| && Candidate(routes[i], path, reqMethod) ==> !Before(routes[i], routes[k], path))
    && (forall i :: 0 <= i < k && Candidate(routes[i], path, reqMethod) ==> Before(routes[k], routes[i], path))
  }

  lemma ScoreOfKind(rt: Route, path: string)
    ensures MatchScore(rt, path) == match KindOf(rt, path)
      case NoMatch => -1
      case Prefix => |rt.path|
      case Parametric => PARAMETRIC + |rt.path|
      case Exact => EXACT + |rt.path|
  {
    BoundaryPrefixMeaning(rt.path, path);
  }

  /** The scores order two matching routes as documented when paths are shorter than 500000 bytes. */
  lemma ScoresFollowOrder(a: Route, b: Route, path: string)
    requires !KindOf(a, path).NoMatch? && !KindOf(b, path).NoMatch?
    requires |a.path| < PARAMETRIC && |b.path| < PARAMETRIC
    ensures MatchScore(a, path) > MatchScore(b, path) <==> Before(a, b, path)
  {
    hide ParametricMatch, EndsOnSegment;
    ScoreOfKind(a, path);
    ScoreOfKind(b, path);
  }

  lemma CandidatesScore(rt: Route, path: string, reqMethod: string)
    ensures Candidate(rt, path, reqMethod) <==> Score(rt, path, reqMethod) >= 0
    ensures Candidate(rt, path, reqMethod) ==> Score(rt, path, reqMethod) == MatchScore(rt, path)
  {
    hide ParametricMatch, EndsOnSegment, AcceptsMethod;
    ScoreOfKind(rt, path);
  }

  /** MatchHTTP finds nothing exactly when nothing matches, and otherwise the preferred route. */
  lemma MatchingFollowsPrecedence(routes: seq<Route>, path: string, reqMethod: string)
    requires forall i :: 0 <= i < |routes| ==> |routes[i].path| < PARAMETRIC
    ensures BestIndex(routes, path, reqMethod).None? <==>
      forall i :: 0 <= i < |routes| ==> !Candidate(routes[i], path, reqMethod)
    ensures BestIndex(routes, path, reqMethod).Some? ==>
      Preferred(routes, path, reqMethod, BestIndex(routes, path, reqMethod).value)
  {
    hide KindOf, MatchScore, Eligible, Score, Candidate, Before;
    forall i | 0 <= i < |routes|
      ensures Candidate(routes[i], path, reqMethod) <==> Score(routes[i], path, reqMethod) >= 0
    {
      CandidatesScore(routes[i], path, reqMethod);
    }
    var best := BestIndex(routes, path, reqMethod);
    if best.Some? {
      var k := best.value;
      forall i | 0 <= i < |routes| && Candidate(routes[i], path, reqMethod)
        ensures !Before(routes[i], routes[k], path)
        ensures i < k ==> Before(routes[k], routes[i], path)
      {
        PairOrder(routes[i], routes[k], path, reqMethod);
      }
    }
  }

  lemma PairOrder(a: Route, b: Route, path: string, reqMethod: string)
    requires Candidate(a, path, reqMethod) && Candidate(b, path, reqMethod)
    requires |a.path| < PARAMETRIC && |b.path| < PARAMETRIC
    ensures Score(a, path, reqMethod) > Score(b, path, reqMethod) <==> Before(a, b, path)
    ensures Score(b, path, reqMethod) > Score(a, path, reqMethod) <==> Before(b, a, path)
  {
    hide KindOf, MatchScore, Before;
    CandidatesScore(a, path, reqMethod);
    CandidatesScore(b, path, reqMethod);
    ScoresFollowOrder(a, b, path);
    ScoresFollowOrder(b, a, path);
  }

  /** How far a's length exceeds b's plus 500000 bytes for every rank between them. */
  ghost function Surplus(a: Route, b: Route, path: string): int {
    |a.path| - |b.path| - PARAMETRIC * (KindOf(b, path).Rank() - KindOf(a, path).Rank())
  }

  /**
   * With paths of any length the preferred route is the answer exactly when no candidate of a lower
   * rank makes up for it by length.
   */
  lemma PreferredWinsIff(routes: seq<Route>, path: string, reqMethod: string, k: nat)
    requires Preferred(routes, path, reqMethod, k)
    ensures BestIndex(routes, path, reqMethod) == Some(k) <==>
      forall i :: 0 <= i < |routes| && Candidate(routes[i], path, reqMethod) ==>
        KindOf(routes[i], path).Rank() < KindOf(routes[k], path).Rank() ==>
          var surplus := Surplus(routes[i], routes[k], path);
          surplus < 0 || (surplus == 0 && k < i)
  {
    hide KindOf, MatchScore, Eligible, Score, Candidate;
    var best := BestIndex(routes, path, reqMethod);
    forall i | 0 <= i < |routes|
      ensures Candidate(routes[i], path, reqMethod) <==> Score(routes[i], path, reqMethod) >= 0
      ensures Candidate(routes[i], path, reqMethod) ==>
        Score(routes[i], path, reqMethod) - Score(routes[k], path, reqMethod) == Surplus(routes[i], routes[k], path)
    {
      CandidatesScore(routes[i], path, reqMethod);
      CandidatesScore(routes[k], path, reqMethod);
      if Candidate(routes[i], path, reqMethod) {
        ScoreGap(routes[i], routes[k], path, reqMethod);
      }
    }
  }

  lemma ScoreGap(a: Route, b: Route, path: string, reqMethod: string)
    requires Candidate(a, path, reqMethod) && Candidate(b, path, reqMethod)
    ensures Score(a, path, reqMethod) - Score(b, path, reqMethod) == Surplus(a, b, path)
  {
    hide ParametricMatch, EndsOnSegment, AcceptsMethod;
    ScoreOfKind(a, path);
    ScoreOfKind(b, path);
  }

  /** Equally preferred exact or prefix matches have the same path; only parametric patterns can truly tie. */
  lemma TiesAreIdentical(a: Route, b: Route, path: string)
    requires KindOf(a, path) == KindOf(b, path) && |a.path| == |b.path|
    requires KindOf(a, path).Exact? || KindOf(a, path).Prefix?
    ensures a.path == b.path
  {
    hide ParametricMatch;
    if KindOf(a, path).Prefix? {
      assert a.path == path[..|a.path|] && b.path == path[..|b.path|];
    }
  }

  lemma SingleSegment(w: string)
    requires w != "" && '/' !in w
    ensures SplitPath("/" + w + "//") == [w]
  {
    var p := "/" + w + "//";
    assert p[1..] == w + "//" && p[1] != '/';
    assert TrimSlashLeft(p) == w + "//";
    assert (w + "//")[..|w| + 1] == w + "/" && (w + "/")[..|w|] == w;
    assert TrimSlashRight(w + "/") == TrimSlashRight(w) == w;
    assert TrimSlashes(p) == w;
    SplitThenJoin(w, '/');
    JoinIsInjective(Split(w, '/'), [w], '/');
  }

  /** Beyond that bound the order does break: a long enough prefix route hides a parametric one. */
  lemma LongPrefixHidesParameter(w: string, parametric: Route, prefix: Route)
    requires |w| >= 500002 && '/' !in w && ':' !in w
    requires parametric.path == "/:x" && prefix.path == "/" + w + "/" && prefix.matchType == "prefix"
    requires Eligible(parametric, "GET") && Eligible(prefix, "GET")
    ensures Preferred([prefix, parametric], "/" + w + "//", "GET", 1)
    ensures BestIndex([prefix, parametric], "/" + w + "//", "GET") == Some(0)
  {
    ParameterTakesSegment(w, parametric);
    PrefixTakesSegment(w, prefix);
    LongerPrefixWins("/" + w + "//", parametric, prefix);
  }

  lemma LongerPrefixWins(path: string, parametric: Route, prefix: Route)
    requires KindOf(parametric, path) == Parametric && KindOf(prefix, path) == Prefix
    requires Eligible(parametric, "GET") && Eligible(prefix, "GET")
    requires |prefix.path| > PARAMETRIC + |parametric.path|
    ensures Preferred([prefix, parametric], path, "GET", 1)
    ensures BestIndex([prefix, parametric], path, "GET") == Some(0)
  {
    hide KindOf, MatchScore;
    ScoreOfKind(parametric, path);
    ScoreOfKind(prefix, path);
    var routes := [prefix, parametric];
    assert routes[0] == prefix && routes[1] == parametric;
    assert Score(routes[0], path, "GET") > Score(routes[1], path, "GET") >= 0;
  }

  lemma ParameterTakesSegment(w: string, parametric: Route)
    requires w != "" && '/' !in w && parametric.path == "/:x"
    ensures KindOf(parametric, "/" + w + "//") == Parametric
  {
    SingleSegment(w);
    SplitThenJoin(":x", '/');
    JoinIsInjective(Split(":x", '/'), [":x"], '/');
    assert TrimSlashLeft("/:x") == ":x" && TrimSlashRight(":x") == ":x";
    assert SplitPath("/:x") == [":x"];
    assert "/:x"[1] == ':';
    assert ("/" + w + "//")[|w| + 2] == '/';
  }

  lemma PrefixTakesSegment(w: string, prefix: Route)
    requires '/' !in w && ':' !in w && prefix.path == "/" + w + "/" && prefix.matchType == "prefix"
    ensures KindOf(prefix, "/" + w + "//") == Prefix
  {
    var path := "/" + w + "//";
    assert path == prefix.path + "/" && path[|prefix.path|] == '/';
    assert ':' !in prefix.path;
  }
}
