/** EnsureHostRule: one load-balancer listener rule per custom-domain host, while others add rules of their own. */
module HostRules {
  import opened Options
  import opened Text

  datatype Action = Action(forward: bool, targetGroup: string)

  /** A condition holds the values of a host header, or is of some other kind; the default rule has no priority. */
  datatype Rule = Rule(arn: string, priority: Option<int>, conditions: seq<Option<seq<string>>>, actions: seq<Action>)

  /** Case, surrounding blanks and one trailing dot do not distinguish host names. */
  function Norm(host: string): string {
    TrimSuffix(ToLower(TrimSpace(host)), ".")
  }

  /** Two spellings name one host exactly when they differ in case, in blanks around them and in one final dot. */
  lemma NormMeaning(host: string, name: string)
    ensures Norm(host) == name <==>
      exists before, written, after ::
        && Blank(before) && Blank(after) && Bare(written) && host == before + written + after
        && (ToLower(written) == name + "." || (ToLower(written) == name && !HasSuffix(name, ".")))
  {
    hide ToLower;
    var written := TrimSpace(host);
    TrimMeaning(host, written);
    DotIsTrimmed(ToLower(written), name);
    if before, w, after :|
      && Blank(before) && Blank(after) && Bare(w) && host == before + w + after
      && (ToLower(w) == name + "." || (ToLower(w) == name && !HasSuffix(name, "."))) {
      TrimMeaning(host, w);
    }
  }

  lemma DotIsTrimmed(s: string, name: string)
    ensures TrimSuffix(s, ".") == name <==> s == name + "." || (s == name && !HasSuffix(name, "."))
  {
    if HasSuffix(s, ".") {
      assert s == s[..|s| - 1] + ".";
    }
    if s == name + "." {
      assert s[|s| - 1..] == "." && s[..|s| - 1] == name;
    }
  }

  predicate NamesHost(values: seq<string>, expected: string) {
    exists v :: v in values && Norm(v) == expected
  }

  predicate RuleFor(rule: Rule, expected: string) {
    exists c :: c in rule.conditions && c.Some? && NamesHost(c.value, expected)
  }

  predicate ForwardsTo(rule: Rule, targetGroup: string) {
    exists a :: a in rule.actions && a.forward && a.targetGroup == targetGroup
  }

  datatype Found = Absent | Owned(arn: string, priority: int) | Conflicting

  /** A rule that forwards to the target group but carries no ARN counts as absent. */
  function Examine(rule: Rule, targetGroup: string): Found {
    if !ForwardsTo(rule, targetGroup) then Conflicting
    else if rule.arn == "" then Absent
    else Owned(rule.arn, rule.priority.GetOr(0))
  }

  /** The verdict on the first rule for the host. */
  function Find(rules: seq<Rule>, expected: string, targetGroup: string): Found {
    if rules == [] then Absent
    else if RuleFor(rules[0], expected) then Examine(rules[0], targetGroup)
    else Find(rules[1..], expected, targetGroup)
  }

  method HostMatches(rule: Rule, expected: string) returns (matches: bool)
    ensures matches <==> RuleFor(rule, expected)
  {
    hide Norm;
    matches := false;
    var i := 0;
    while i < |rule.conditions|
      invariant 0 <= i <= |rule.conditions|
      invariant matches <==>
        exists k :: 0 <= k < i && rule.conditions[k].Some? && NamesHost(rule.conditions[k].value, expected)
    {
      var condition := rule.conditions[i];
      if condition.Some? {
        var values, j := condition.value, 0;
        var named := false;
        while j < |values|
          invariant 0 <= j <= |values|
          invariant !named && forall k :: 0 <= k < j ==> Norm(values[k]) != expected
        {
          if Norm(values[j]) == expected {
            assert values[j] in values;
            named := true;
            break;
          }
          j := j + 1;
        }
        assert named <==> NamesHost(values, expected);
        matches := matches || named;
      }
      i := i + 1;
    }
  }

  method FindCustomDomainHostRuleDetails(rules: seq<Rule>, hostname: string, targetGroup: string) returns (found: Found)
    ensures found == Find(rules, Norm(hostname), targetGroup)
  {
    hide Norm, RuleFor;
    var expectedHost := Norm(hostname);
    var i := 0;
    while i < |rules|
      invariant 0 <= i <= |rules|
      invariant Find(rules, expectedHost, targetGroup) == Find(rules[i..], expectedHost, targetGroup)
    {
      var rule := rules[i];
      assert rules[i..][0] == rule && rules[i..][1..] == rules[i + 1..];
      var hostMatches := HostMatches(rule, expectedHost);
      if hostMatches {
        var k := 0;
        while k < |rule.actions|
          invariant 0 <= k <= |rule.actions|
          invariant forall j :: 0 <= j < k ==> !(rule.actions[j].forward && rule.actions[j].targetGroup == targetGroup)
        {
          if rule.actions[k].forward && rule.actions[k].targetGroup == targetGroup {
            assert rule.actions[k] in rule.actions;
            return if rule.arn == "" then Absent else Owned(rule.arn, rule.priority.GetOr(0));
          }
          k := k + 1;
        }
        return Conflicting;
      }
      i := i + 1;
    }
    return Absent;
  }

  // ---------------------------------------------------------------- priorities

  predicate Taken(rules: seq<Rule>, p: int) {
    exists r :: r in rules && r.priority == Some(p)
  }

  function LeastFree(rules: seq<Rule>, from: int, maxPriority: int): (p: Option<int>)
    ensures p.None? <==> forall q :: from <= q <= maxPriority ==> Taken(rules, q)
    ensures p.Some? ==> from <= p.value <= maxPriority && !Taken(rules, p.value)
    ensures p.Some? ==> forall q :: from <= q < p.value ==> Taken(rules, q)
    decreases maxPriority - from
  {
    if from > maxPriority then None
    else if !Taken(rules, from) then Some(from)
    else LeastFree(rules, from + 1, maxPriority)
  }

  method SelectPriority(rules: seq<Rule>, minPriority: int, maxPriority: int) returns (selected: Option<int>)
    ensures selected == LeastFree(rules, minPriority, maxPriority)
  {
    var inUse: set<int> := {};
    var i := 0;
    while i < |rules|
      invariant 0 <= i <= |rules|
      invariant forall p :: p in inUse <==> exists k :: 0 <= k < i && rules[k].priority == Some(p)
    {
      if rules[i].priority.Some? {
        inUse := inUse + {rules[i].priority.value};
      }
      i := i + 1;
    }
    assert forall p :: p in inUse <==> Taken(rules, p);
    hide Taken;
    var p := minPriority;
    while p <= maxPriority
      invariant LeastFree(rules, minPriority, maxPriority) == LeastFree(rules, p, maxPriority)
      decreases maxPriority - p
    {
      if p !in inUse {
        return Some(p);
      }
      p := p + 1;
    }
    return None;
  }

  // ---------------------------------------------------------------- one attempt

  datatype Reply = Created | NoArn | InUse | ServiceError

  /** What the service does with a create request whose priority is free: it may act and still answer with an error. */
  datatype Service = Acts(arn: string, reply: Reply) | Refuses(reply: Reply)

  /**
   * The environment of one attempt: whether the listing can be read, the rules others add before
   * it, those they add between it and the create request, and the service's answer.
   */
  datatype Attempt = Attempt(describes: bool, before: seq<Rule>, after: seq<Rule>, service: Service)

  datatype Failure = InvalidInput | DescribeFailed | TargetConflict | NoPriority | CreateFailed | MissingArn | Exhausted

  datatype Result = Done(arn: string, priority: int) | Failed(failure: Failure)

  function NewRule(arn: string, host: string, targetGroup: string, p: int): Rule {
    Rule(arn, Some(p), [Some([host])], [Action(true, targetGroup)])
  }

  /** CreateRule: the listener never holds two rules with one priority. */
  function Create(rules: seq<Rule>, host: string, targetGroup: string, p: int, service: Service): (seq<Rule>, Reply) {
    if Taken(rules, p) then (rules, InUse)
    else
      match service
      case Acts(arn, reply) => (rules + [NewRule(arn, host, targetGroup, p)], reply)
      case Refuses(reply) => (rules, if reply.InUse? then InUse else ServiceError)
  }

  function ArnOf(service: Service): string {
    match service
    case Acts(arn, _) => arn
    case Refuses(_) => ""
  }

  /** One pass of the loop; no result means that it goes round again. */
  function Once(rules: seq<Rule>, host: string, targetGroup: string, lo: int, hi: int, env: Attempt)
    : (seq<Rule>, Option<Result>)
  {
    var listing := rules + env.before;
    if !env.describes then (listing, Some(Failed(DescribeFailed)))
    else
      match Find(listing, Norm(host), targetGroup)
      case Owned(arn, p) => (listing, Some(Done(arn, p)))
      case Conflicting => (listing, Some(Failed(TargetConflict)))
      case Absent =>
        match LeastFree(listing, lo, hi)
        case None => (listing, Some(Failed(NoPriority)))
        case Some(p) =>
          var (rules', reply) := Create(listing + env.after, host, targetGroup, p, env.service);
          match reply
          case Created => (rules', Some(Done(ArnOf(env.service), p)))
          case NoArn => (rules', Some(Failed(MissingArn)))
          case ServiceError => (rules', Some(Failed(CreateFailed)))
          case InUse => (rules', None)
  }

  function Ensure(rules: seq<Rule>, host: string, targetGroup: string, lo: int, hi: int, envs: seq<Attempt>)
    : (seq<Rule>, Result)
    decreases |envs|
  {
    if envs == [] then (rules, Failed(Exhausted))
    else
      var (rules', result) := Once(rules, host, targetGroup, lo, hi, envs[0]);
      if result.Some? then (rules', result.value) else Ensure(rules', host, targetGroup, lo, hi, envs[1..])
  }

  const MAX_ATTEMPTS := 5

  class Listener {
    var rules: seq<Rule>

    constructor (rules: seq<Rule>)
      ensures this.rules == rules
    {
      this.rules := rules;
    }

    method CreateRule(host: string, targetGroup: string, p: int, service: Service) returns (reply: Reply)
      modifies this
      ensures (rules, reply) == Create(old(rules), host, targetGroup, p, service)
    {
      if Taken(rules, p) {
        return InUse;
      }
      match service
      case Acts(arn, answer) =>
        rules := rules + [NewRule(arn, host, targetGroup, p)];
        return answer;
      case Refuses(answer) =>
        return if answer.InUse? then InUse else ServiceError;
    }

    method EnsureHostRule(listenerArn: string, hostname: string, targetGroupArn: string, minPriority: int,
                          maxPriority: int, envs: seq<Attempt>) returns (result: Result)
      requires |envs| == MAX_ATTEMPTS
      modifies this
      ensures var host, targetGroup := Norm(hostname), TrimSpace(targetGroupArn);
        if TrimSpace(listenerArn) == "" || host == "" || targetGroup == ""
           || minPriority < 1 || maxPriority > 50000 || minPriority > maxPriority
        then rules == old(rules) && result == Failed(InvalidInput)
        else (rules, result) == Ensure(old(rules), host, targetGroup, minPriority, maxPriority, envs)
    {
      hide Norm, TrimSpace;
      var host, targetGroup := Norm(hostname), TrimSpace(targetGroupArn);
      if TrimSpace(listenerArn) == "" || host == "" || targetGroup == "" {
        return Failed(InvalidInput);
      }
      if minPriority < 1 || maxPriority > 50000 || minPriority > maxPriority {
        return Failed(InvalidInput);
      }
      var attempt := 0;
      while attempt < MAX_ATTEMPTS
        invariant 0 <= attempt <= MAX_ATTEMPTS
        invariant Ensure(old(rules), host, targetGroup, minPriority, maxPriority, envs)
          == Ensure(rules, host, targetGroup, minPriority, maxPriority, envs[attempt..])
      {
        var env := envs[attempt];
        assert envs[attempt..][0] == env && envs[attempt..][1..] == envs[attempt + 1..];
        var outcome := TryOnce(host, targetGroup, minPriority, maxPriority, env);
        if outcome.Some? {
          return outcome.value;
        }
        attempt := attempt + 1;
      }
      return Failed(Exhausted);
    }

    /** The body of the retry loop. */
    method TryOnce(host: string, targetGroup: string, lo: int, hi: int, env: Attempt) returns (outcome: Option<Result>)
      modifies this
      ensures (rules, outcome) == Once(old(rules), host, targetGroup, lo, hi, env)
    {
      hide Norm, Taken, Find;
      rules := rules + env.before;
      if !env.describes {
        return Some(Failed(DescribeFailed));
      }
      var listing := rules;
      var found := FindCustomDomainHostRuleDetails(listing, host, targetGroup);
      if found.Owned? {
        return Some(Done(found.arn, found.priority));
      }
      if found.Conflicting? {
        return Some(Failed(TargetConflict));
      }
      var selected := SelectPriority(listing, lo, hi);
      if selected.None? {
        return Some(Failed(NoPriority));
      }
      rules := rules + env.after;
      var reply := CreateRule(host, targetGroup, selected.value, env.service);
      match reply
      case InUse => return None;
      case ServiceError => return Some(Failed(CreateFailed));
      case NoArn => return Some(Failed(MissingArn));
      case Created => return Some(Done(ArnOf(env.service), selected.value));
    }
  }

  // ---------------------------------------------------------------- safety under interference

  ghost predicate OneAtMost(rules: seq<Rule>, expected: string) {
    forall i, j :: 0 <= i < j < |rules| ==> !(RuleFor(rules[i], expected) && RuleFor(rules[j], expected))
  }

  ghost predicate DistinctPriorities(rules: seq<Rule>) {
    forall i, j :: 0 <= i < j < |rules| ==> rules[i].priority.None? || rules[i].priority != rules[j].priority
  }

  /** The service gives every rule an ARN. */
  ghost predicate AllNamed(rules: seq<Rule>) {
    forall r :: r in rules ==> r.arn != ""
  }

  /** At most one rule for the host, and distinct priorities. */
  ghost predicate Orderly(rules: seq<Rule>, expected: string) {
    OneAtMost(rules, expected) && DistinctPriorities(rules) && AllNamed(rules)
  }

  ghost predicate NoneFor(rules: seq<Rule>, expected: string) {
    forall r :: r in rules ==> !RuleFor(r, expected)
  }

  /** Others only add rules for other hosts, on priorities not in use. */
  ghost predicate OthersBehave(rules: seq<Rule>, env: Attempt, expected: string) {
    && NoneFor(env.before, expected) && NoneFor(env.after, expected)
    && AllNamed(env.before) && AllNamed(env.after) && (env.service.Acts? ==> env.service.arn != "")
    && DistinctPriorities(rules + env.before) && DistinctPriorities(rules + env.before + env.after)
  }

  ghost predicate Behaved(rules: seq<Rule>, host: string, targetGroup: string, lo: int, hi: int, envs: seq<Attempt>)
    decreases |envs|
  {
    envs != [] ==>
      && OthersBehave(rules, envs[0], Norm(host))
      && var (rules', result) := Once(rules, host, targetGroup, lo, hi, envs[0]);
         result.None? ==> Behaved(rules', host, targetGroup, lo, hi, envs[1..])
  }

  /** The rule at k is the only one for the host, forwards to the target group, and is the one reported. */
  ghost predicate Serves(rules: seq<Rule>, expected: string, targetGroup: string, k: nat, arn: string, p: int) {
    && k < |rules| && RuleFor(rules[k], expected) && ForwardsTo(rules[k], targetGroup)
    && rules[k].arn == arn != "" && rules[k].priority.GetOr(0) == p
    && forall i :: 0 <= i < |rules| && RuleFor(rules[i], expected) ==> i == k
  }

  /** The host's rule, if it has one, has a priority in the range; vacuous before the first rule is made. */
  ghost predicate InRange(rules: seq<Rule>, expected: string, lo: int, hi: int) {
    forall r :: r in rules && RuleFor(r, expected) ==> r.priority.Some? && lo <= r.priority.value <= hi
  }

  lemma {:induction false} FindMeaning(rules: seq<Rule>, expected: string, targetGroup: string) returns (k: nat)
    requires AllNamed(rules)
    ensures Find(rules, expected, targetGroup).Absent? ==> NoneFor(rules, expected)
    ensures !Find(rules, expected, targetGroup).Absent? ==>
      k < |rules| && RuleFor(rules[k], expected) && Find(rules, expected, targetGroup) == Examine(rules[k], targetGroup)
  {
    hide RuleFor, ForwardsTo;
    k := 0;
    if rules != [] && !RuleFor(rules[0], expected) {
      var j := FindMeaning(rules[1..], expected, targetGroup);
      k := j + 1;
      if Find(rules, expected, targetGroup).Absent? {
        forall r | r in rules
          ensures !RuleFor(r, expected)
        {
          assert r == rules[0] || r in rules[1..];
        }
      }
    }
  }

  lemma NewRuleServes(arn: string, host: string, targetGroup: string, p: int)
    ensures RuleFor(NewRule(arn, host, targetGroup, p), Norm(host))
    ensures ForwardsTo(NewRule(arn, host, targetGroup, p), targetGroup)
  {
    hide Norm;
    var rule := NewRule(arn, host, targetGroup, p);
    assert [host][0] in [host];
    assert rule.conditions[0] in rule.conditions;
    assert rule.actions[0] in rule.actions;
  }

  lemma JoinedByOthers(rules: seq<Rule>, others: seq<Rule>, expected: string)
    requires OneAtMost(rules, expected) && NoneFor(others, expected)
    ensures OneAtMost(rules + others, expected)
    ensures NoneFor(rules, expected) ==> NoneFor(rules + others, expected)
  {
    hide RuleFor;
    var all := rules + others;
    forall i | |rules| <= i < |all|
      ensures !RuleFor(all[i], expected)
    {
      assert all[i] in others;
    }
  }

  /** Adding our rule on a free priority where the host had none keeps the listener orderly. */
  lemma JoinedByOurs(rules: seq<Rule>, rule: Rule, p: int, expected: string)
    requires NoneFor(rules, expected) && DistinctPriorities(rules)
    requires rule.priority == Some(p) && !Taken(rules, p) && rule.arn != "" && AllNamed(rules)
    ensures Orderly(rules + [rule], expected)
    ensures forall i :: 0 <= i < |rules| ==> !RuleFor((rules + [rule])[i], expected)
  {
    hide RuleFor;
    var all := rules + [rule];
    forall i | 0 <= i < |rules|
      ensures !RuleFor(all[i], expected) && all[i].priority != Some(p)
    {
      assert all[i] in rules;
    }
  }

  /** What one pass leaves behind, whatever others and the service do. */
  lemma OnceIsSafe(rules: seq<Rule>, host: string, targetGroup: string, lo: int, hi: int, env: Attempt)
    requires Orderly(rules, Norm(host)) && OthersBehave(rules, env, Norm(host))
    ensures var (rules', result) := Once(rules, host, targetGroup, lo, hi, env);
      && Orderly(rules', Norm(host)) && rules <= rules'
      && (result.Some? && result.value.Done? ==>
            exists k: nat :: Serves(rules', Norm(host), targetGroup, k, result.value.arn, result.value.priority))
      && (InRange(rules, Norm(host), lo, hi) ==> InRange(rules', Norm(host), lo, hi))
  {
    hide Norm, RuleFor, ForwardsTo, Taken;
    var expected := Norm(host);
    var listing := rules + env.before;
    JoinedByOthers(rules, env.before, expected);
    JoinedByOthers(listing, env.after, expected);
    if env.describes {
      var k := FindMeaning(listing, expected, targetGroup);
      match Find(listing, expected, targetGroup)
      case Owned(arn, p) =>
        assert Serves(listing, expected, targetGroup, k, arn, p);
        assert listing[k] in listing;
      case Conflicting =>
      case Absent =>
        var free := LeastFree(listing, lo, hi);
        if free.Some? && env.service.Acts? && !Taken(listing + env.after, free.value) {
          var p := free.value;
          var rule := NewRule(env.service.arn, host, targetGroup, p);
          JoinedByOurs(listing + env.after, rule, p, expected);
          NewRuleServes(env.service.arn, host, targetGroup, p);
          var rules' := listing + env.after + [rule];
          assert Serves(rules', expected, targetGroup, |listing + env.after|, env.service.arn, p);
        }
    }
  }

  /**
   * Success leaves exactly one rule for the host, forwarding to the target group, and it is the one
   * reported; a rule made by this call has a priority in the requested range that no other rule has.
   * Every failure also leaves at most one rule for the host, and no call removes or changes a rule.
   */
  lemma {:induction false} EnsureIsSafe(rules: seq<Rule>, host: string, targetGroup: string, lo: int, hi: int,
                                        envs: seq<Attempt>)
    requires Orderly(rules, Norm(host)) && Behaved(rules, host, targetGroup, lo, hi, envs)
    ensures var (rules', result) := Ensure(rules, host, targetGroup, lo, hi, envs);
      && Orderly(rules', Norm(host)) && rules <= rules'
      && (result.Done? ==>
            exists k: nat :: Serves(rules', Norm(host), targetGroup, k, result.arn, result.priority))
      && (InRange(rules, Norm(host), lo, hi) ==> InRange(rules', Norm(host), lo, hi))
    decreases |envs|
  {
    hide Norm, Once, Orderly, OthersBehave;
    if envs != [] {
      OnceIsSafe(rules, host, targetGroup, lo, hi, envs[0]);
      var (rules', result) := Once(rules, host, targetGroup, lo, hi, envs[0]);
      if result.None? {
        EnsureIsSafe(rules', host, targetGroup, lo, hi, envs[1..]);
      }
    }
  }

  /** A rule made by the call lies in the range, on a priority that no other rule of the listener has. */
  lemma NewRuleIsUnique(rules: seq<Rule>, host: string, targetGroup: string, lo: int, hi: int, envs: seq<Attempt>)
    requires Orderly(rules, Norm(host)) && Behaved(rules, host, targetGroup, lo, hi, envs)
    requires NoneFor(rules, Norm(host))
    ensures var (rules', result) := Ensure(rules, host, targetGroup, lo, hi, envs);
      result.Done? ==>
        && lo <= result.priority <= hi
        && exists k: nat :: Serves(rules', Norm(host), targetGroup, k, result.arn, result.priority)
             && forall i :: 0 <= i < |rules'| && rules'[i].priority == Some(result.priority) ==> i == k
  {
    hide Norm, Ensure, Behaved, RuleFor, ForwardsTo;
    EnsureIsSafe(rules, host, targetGroup, lo, hi, envs);
    var (rules', result) := Ensure(rules, host, targetGroup, lo, hi, envs);
    if result.Done? {
      var k: nat :| Serves(rules', Norm(host), targetGroup, k, result.arn, result.priority);
      assert rules'[k] in rules';
      assert rules'[k].priority == Some(result.priority);
    }
  }

  /** A later call, after others have added whatever rules they like, changes nothing and reports the same rule. */
  lemma EnsureAgainChangesNothing(rules: seq<Rule>, host: string, targetGroup: string, lo: int, hi: int,
                                  k: nat, arn: string, p: int, envs: seq<Attempt>)
    requires Serves(rules, Norm(host), targetGroup, k, arn, p)
    requires envs != [] && envs[0].describes
    requires AllNamed(rules) && AllNamed(envs[0].before) && NoneFor(envs[0].before, Norm(host))
    ensures Ensure(rules, host, targetGroup, lo, hi, envs) == (rules + envs[0].before, Done(arn, p))
  {
    hide Norm, RuleFor, ForwardsTo;
    var listing := rules + envs[0].before;
    var j := FindMeaning(listing, Norm(host), targetGroup);
    assert listing[k] in listing;
    assert forall i :: |rules| <= i < |listing| ==> listing[i] in envs[0].before;
    assert Examine(listing[j], targetGroup) == Owned(arn, p);
  }

  ghost predicate AllForward(rules: seq<Rule>, expected: string, targetGroup: string) {
    forall r :: r in rules && RuleFor(r, expected) ==> ForwardsTo(r, targetGroup)
  }

  lemma OnceKeepsForwarding(rules: seq<Rule>, host: string, targetGroup: string, lo: int, hi: int, env: Attempt)
    requires AllForward(rules, Norm(host), targetGroup) && OthersBehave(rules, env, Norm(host)) && AllNamed(rules)
    ensures AllForward(Once(rules, host, targetGroup, lo, hi, env).0, Norm(host), targetGroup)
    ensures AllNamed(Once(rules, host, targetGroup, lo, hi, env).0)
    ensures Once(rules, host, targetGroup, lo, hi, env).1 != Some(Failed(TargetConflict))
  {
    hide Norm, RuleFor, ForwardsTo, Taken, DistinctPriorities;
    var listing := rules + env.before;
    var k := FindMeaning(listing, Norm(host), targetGroup);
    assert AllForward(listing, Norm(host), targetGroup);
    if !Find(listing, Norm(host), targetGroup).Absent? {
      assert listing[k] in listing;
    }
    if env.service.Acts? && LeastFree(listing, lo, hi).Some? {
      NewRuleServes(env.service.arn, host, targetGroup, LeastFree(listing, lo, hi).value);
    }
  }

  lemma {:induction false} ForwardingNeverConflicts(rules: seq<Rule>, host: string, targetGroup: string,
                                                    lo: int, hi: int, envs: seq<Attempt>)
    requires AllForward(rules, Norm(host), targetGroup) && AllNamed(rules)
    requires Behaved(rules, host, targetGroup, lo, hi, envs)
    ensures Ensure(rules, host, targetGroup, lo, hi, envs).1 != Failed(TargetConflict)
    decreases |envs|
  {
    hide Norm, Once, AllForward, AllNamed, RuleFor;
    if envs != [] {
      OnceKeepsForwarding(rules, host, targetGroup, lo, hi, envs[0]);
      var (rules', result) := Once(rules, host, targetGroup, lo, hi, envs[0]);
      if result.None? {
        ForwardingNeverConflicts(rules', host, targetGroup, lo, hi, envs[1..]);
      }
    }
  }

  /** A conflict is reported exactly when the host's rule forwards elsewhere, never because of our own attempts. */
  lemma ConflictIff(rules: seq<Rule>, host: string, targetGroup: string, lo: int, hi: int, envs: seq<Attempt>)
    requires Orderly(rules, Norm(host)) && Behaved(rules, host, targetGroup, lo, hi, envs)
    requires envs != [] && envs[0].describes
    ensures Ensure(rules, host, targetGroup, lo, hi, envs).1 == Failed(TargetConflict) <==>
      exists r :: r in rules && RuleFor(r, Norm(host)) && !ForwardsTo(r, targetGroup)
  {
    hide Norm, RuleFor, ForwardsTo, Taken, DistinctPriorities;
    if r :| r in rules && RuleFor(r, Norm(host)) && !ForwardsTo(r, targetGroup) {
      var listing := rules + envs[0].before;
      var i :| 0 <= i < |rules| && rules[i] == r;
      var k := FindMeaning(listing, Norm(host), targetGroup);
      JoinedByOthers(rules, envs[0].before, Norm(host));
      assert listing[i] == r && listing[i] in listing;
      assert k == i;
    } else {
      ForwardingNeverConflicts(rules, host, targetGroup, lo, hi, envs);
    }
  }

  lemma {:induction false} NothingToFind(rules: seq<Rule>, expected: string, targetGroup: string)
    requires NoneFor(rules, expected)
    ensures Find(rules, expected, targetGroup) == Absent
  {
    hide RuleFor;
    if rules != [] {
      assert rules[0] in rules;
      NothingToFind(rules[1..], expected, targetGroup);
    }
  }

  /** A host without a rule gets one at the first attempt, on the least free priority, if nobody is faster. */
  lemma FreshHostIsServed(rules: seq<Rule>, host: string, targetGroup: string, lo: int, hi: int, envs: seq<Attempt>,
                          p: int)
    requires envs != [] && envs[0].describes && envs[0].service.Acts? && envs[0].service.reply == Created
    requires NoneFor(rules + envs[0].before, Norm(host))
    requires lo <= p <= hi && !Taken(rules + envs[0].before + envs[0].after, p)
    requires forall q :: lo <= q < p ==> Taken(rules + envs[0].before, q)
    ensures var (rules', result) := Ensure(rules, host, targetGroup, lo, hi, envs);
      && result == Done(envs[0].service.arn, p)
      && rules' == rules + envs[0].before + envs[0].after + [NewRule(envs[0].service.arn, host, targetGroup, p)]
  {
    hide Norm, RuleFor, ForwardsTo;
    var listing := rules + envs[0].before;
    NothingToFind(listing, Norm(host), targetGroup);
    assert !Taken(listing, p) by {
      assert forall r :: r in listing ==> r in listing + envs[0].after;
    }
    hide Taken;
    assert LeastFree(listing, lo, hi) == Some(p);
  }
}
