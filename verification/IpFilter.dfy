/** Address rules, the checker built from them, and the cache keyed by rule content. */
module IpFiltering {
  import opened Options
  import opened Sorting
  import opened Text

  type Address = seq<nat>

  datatype Subnet = Subnet(base: Address, mask: seq<nat>)

  /** The parts of Go's `net` package that the checker calls. */
  datatype NetLib = NetLib(
    parseCidr: string -> Option<Subnet>,
    parseIp: string -> Option<Address>,
    to4: Address -> Option<Address>,
    text: Address -> string,
    contains: (Subnet, Address) -> bool)

  /** No address and no prefix is written with a comma. */
  ghost predicate Lawful(net: NetLib) {
    forall s: string :: ',' in s ==> net.parseCidr(s).None? && net.parseIp(s).None?
  }

  datatype Checker = Checker(allowedIps: set<string>, allowedSubnets: seq<Subnet>)

  const EMPTY_CHECKER := Checker({}, [])

  function AddRule(net: NetLib, checker: Checker, rule: string): Option<Checker> {
    var pat := TrimSpace(rule);
    if pat == "" then Some(checker)
    else if net.parseCidr(pat).Some? then
      Some(checker.(allowedSubnets := checker.allowedSubnets + [net.parseCidr(pat).value]))
    else if net.parseIp(pat).Some? then
      Some(checker.(allowedIps := checker.allowedIps + {net.text(net.parseIp(pat).value)}))
    else None
  }

  function Build(net: NetLib, rules: seq<string>): Option<Checker> {
    if rules == [] then Some(EMPTY_CHECKER)
    else
      var before := Build(net, rules[..|rules| - 1]);
      if before.None? then None else AddRule(net, before.value, rules[|rules| - 1])
  }

  lemma {:induction false} FailedPrefixFails(net: NetLib, rules: seq<string>, k: nat)
    requires k <= |rules| && Build(net, rules[..k]).None?
    ensures Build(net, rules).None?
    decreases |rules|
  {
    if k == |rules| {
      assert rules[..k] == rules;
    } else {
      assert rules[..|rules| - 1][..k] == rules[..k];
      FailedPrefixFails(net, rules[..|rules| - 1], k);
    }
  }

  method NewIPChecker(net: NetLib, patterns: seq<string>) returns (checker: Option<Checker>)
    ensures checker == Build(net, patterns)
  {
    var c := EMPTY_CHECKER;
    var i := 0;
    while i < |patterns|
      invariant 0 <= i <= |patterns|
      invariant Build(net, patterns[..i]) == Some(c)
    {
      assert patterns[..i + 1][..i] == patterns[..i];
      var pat := TrimSpace(patterns[i]);
      if pat != "" {
        var subnet := net.parseCidr(pat);
        if subnet.Some? {
          c := c.(allowedSubnets := c.allowedSubnets + [subnet.value]);
        } else {
          var ip := net.parseIp(pat);
          if ip.Some? {
            c := c.(allowedIps := c.allowedIps + {net.text(ip.value)});
          } else {
            FailedPrefixFails(net, patterns, i + 1);
            return None;
          }
        }
      }
      i := i + 1;
    }
    assert patterns[..i] == patterns;
    return Some(c);
  }

  /** The address a request comes from, IPv4 in its short form. */
  function ClientAddress(net: NetLib, ip: string): Option<Address> {
    var parsed := net.parseIp(ip);
    if parsed.None? then None else Some(net.to4(parsed.value).GetOr(parsed.value))
  }

  ghost predicate Allows(net: NetLib, c: Checker, ip: string) {
    var a := ClientAddress(net, ip);
    a.Some? && (net.text(a.value) in c.allowedIps || exists s :: s in c.allowedSubnets && net.contains(s, a.value))
  }

  method IsAllowed(net: NetLib, c: Checker, ipStr: string) returns (allowed: bool)
    ensures allowed <==> Allows(net, c, ipStr)
  {
    var parsed := net.parseIp(ipStr);
    if parsed.None? {
      return false;
    }
    var ip := parsed.value;
    var v4 := net.to4(ip);
    if v4.Some? {
      ip := v4.value;
    }
    if net.text(ip) in c.allowedIps {
      return true;
    }
    var i := 0;
    while i < |c.allowedSubnets|
      invariant 0 <= i <= |c.allowedSubnets|
      invariant forall j :: 0 <= j < i ==> !net.contains(c.allowedSubnets[j], ip)
    {
      if net.contains(c.allowedSubnets[i], ip) {
        return true;
      }
      i := i + 1;
    }
    return false;
  }

  // ---------------------------------------------------------------- what a rule list means

  /** A rule that is neither blank, nor a prefix, nor an address. */
  predicate BadRule(net: NetLib, rule: string) {
    var pat := TrimSpace(rule);
    pat != "" && net.parseCidr(pat).None? && net.parseIp(pat).None?
  }

  /** The rule lists the client address, alone or inside a prefix. */
  predicate Covers(net: NetLib, rule: string, a: Address) {
    var pat := TrimSpace(rule);
    pat != "" &&
      match net.parseCidr(pat)
      case Some(subnet) => net.contains(subnet, a)
      case None => net.parseIp(pat).Some? && net.text(net.parseIp(pat).value) == net.text(a)
  }

  /** Some rule covers the address, an IPv4 address in its short form; what is no address is not allowed. */
  ghost predicate ListAllows(net: NetLib, rules: seq<string>, ip: string) {
    && net.parseIp(ip).Some?
    && var full := net.parseIp(ip).value;
       var address := if net.to4(full).Some? then net.to4(full).value else full;
       exists rule :: rule in rules && Covers(net, rule, address)
  }

  /** Building fails exactly on a bad rule, and otherwise the checker decides by the rules alone. */
  lemma {:induction false} CheckerMeansItsRules(net: NetLib, rules: seq<string>)
    ensures Build(net, rules).None? <==> exists rule :: rule in rules && BadRule(net, rule)
    ensures Build(net, rules).Some? ==>
      forall ip :: Allows(net, Build(net, rules).value, ip) <==> ListAllows(net, rules, ip)
  {
    hide TrimSpace;
    if rules != [] {
      var init, last := rules[..|rules| - 1], rules[|rules| - 1];
      assert rules == init + [last];
      CheckerMeansItsRules(net, init);
      assert last in rules;
      if Build(net, rules).Some? {
        var before, c := Build(net, init).value, Build(net, rules).value;
        forall ip
          ensures Allows(net, c, ip) <==> ListAllows(net, rules, ip)
        {
          LastRuleDecides(net, before, last, c, ip);
          assert Allows(net, before, ip) <==> ListAllows(net, init, ip);
          LastRuleLists(net, init, last, ip);
        }
      }
    }
  }

  lemma LastRuleLists(net: NetLib, init: seq<string>, last: string, ip: string)
    ensures ListAllows(net, init + [last], ip) <==>
      ListAllows(net, init, ip) || (ClientAddress(net, ip).Some? && Covers(net, last, ClientAddress(net, ip).value))
  {
    hide Covers;
    var rules, a := init + [last], ClientAddress(net, ip);
    assert last == rules[|init|];
    if a.Some? {
      assert ListAllows(net, rules, ip) <==> exists rule :: rule in rules && Covers(net, rule, a.value);
      assert ListAllows(net, init, ip) <==> exists rule :: rule in init && Covers(net, rule, a.value);
    }
  }

  lemma LastRuleDecides(net: NetLib, before: Checker, rule: string, c: Checker, ip: string)
    requires AddRule(net, before, rule) == Some(c)
    ensures Allows(net, c, ip) <==>
      Allows(net, before, ip) || (ClientAddress(net, ip).Some? && Covers(net, rule, ClientAddress(net, ip).value))
  {
    hide TrimSpace;
    var a := ClientAddress(net, ip);
    var pat := TrimSpace(rule);
    if a.Some? && pat != "" && net.parseCidr(pat).Some? {
      var subnet := net.parseCidr(pat).value;
      assert forall s :: s in c.allowedSubnets <==> s in before.allowedSubnets || s == subnet;
    }
  }

  /** Reordering a list, or repeating its rules, changes neither whether it builds nor any verdict. */
  lemma OrderDoesNotMatter(net: NetLib, a: seq<string>, b: seq<string>)
    requires forall rule :: rule in a <==> rule in b
    ensures Build(net, a).None? <==> Build(net, b).None?
    ensures Build(net, a).Some? ==>
      forall ip :: Allows(net, Build(net, a).value, ip) <==> Allows(net, Build(net, b).value, ip)
  {
    CheckerMeansItsRules(net, a);
    CheckerMeansItsRules(net, b);
    if Build(net, a).Some? {
      forall ip
        ensures Allows(net, Build(net, a).value, ip) <==> Allows(net, Build(net, b).value, ip)
      {
        assert ListAllows(net, a, ip) <==> ListAllows(net, b, ip);
      }
    }
  }

  // ---------------------------------------------------------------- the cache key

  function RuleSetKey(rules: seq<string>): string {
    Join(Sort(rules), ',')
  }

  /** On comma-free rules the key identifies the list up to order. */
  lemma KeyIdentifiesRules(a: seq<string>, b: seq<string>)
    requires a != [] && b != [] && FreeOf(a, ',') && FreeOf(b, ',')
    ensures RuleSetKey(a) == RuleSetKey(b) <==> multiset(a) == multiset(b)
  {
    SortIsCanonical(a, b);
    SortKeepsMembers(a);
    SortKeepsMembers(b);
    if RuleSetKey(a) == RuleSetKey(b) {
      JoinIsInjective(Sort(a), Sort(b), ',');
    }
  }

  lemma {:induction false} TrimLeftKeeps(s: string, c: char)
    requires !IsSpace(c)
    ensures c in TrimLeft(s) <==> c in s
  {
    if s != "" && IsSpace(s[0]) {
      assert s == [s[0]] + s[1..];
      TrimLeftKeeps(s[1..], c);
    }
  }

  lemma {:induction false} TrimRightKeeps(s: string, c: char)
    requires !IsSpace(c)
    ensures c in TrimRight(s) <==> c in s
  {
    if s != "" && IsSpace(s[|s| - 1]) {
      assert s == s[..|s| - 1] + [s[|s| - 1]];
      TrimRightKeeps(s[..|s| - 1], c);
    }
  }

  lemma CommaRuleIsBad(net: NetLib, rule: string)
    requires Lawful(net) && ',' in rule
    ensures BadRule(net, rule)
  {
    TrimLeftKeeps(rule, ',');
    TrimRightKeeps(TrimLeft(rule), ',');
  }

  lemma BuiltListsHaveNoComma(net: NetLib, rules: seq<string>)
    requires Lawful(net) && Build(net, rules).Some?
    ensures FreeOf(rules, ',')
  {
    CheckerMeansItsRules(net, rules);
    forall rule | rule in rules
      ensures ',' !in rule
    {
      if ',' in rule {
        CommaRuleIsBad(net, rule);
      }
    }
  }

  // ---------------------------------------------------------------- the cache

  const MAX_ENTRIES := 5000

  type Entries = map<string, Checker>

  /** The second half of get: store a freshly built checker, dropping everything when full. */
  function Stored(entries: Entries, key: string, checker: Checker): Entries {
    if |entries| >= MAX_ENTRIES then map[key := checker] else entries[key := checker]
  }

  function Answer(net: NetLib, entries: Entries, rules: seq<string>): Option<Checker> {
    if rules == [] then None
    else if RuleSetKey(rules) in entries then Some(entries[RuleSetKey(rules)])
    else Build(net, rules)
  }

  class IPCheckerCache {
    var entries: Entries

    constructor ()
      ensures entries == map[]
    {
      entries := map[];
    }

    method Get(net: NetLib, rules: seq<string>) returns (checker: Option<Checker>)
      modifies this
      ensures checker == Answer(net, old(entries), rules)
      ensures entries ==
        if rules == [] || RuleSetKey(rules) in old(entries) || Build(net, rules).None? then old(entries)
        else Stored(old(entries), RuleSetKey(rules), Build(net, rules).value)
    {
      if |rules| == 0 {
        return None;
      }
      var key := RuleSetKey(rules);
      if key in entries {
        return Some(entries[key]);
      }
      checker := NewIPChecker(net, rules);
      if checker.None? {
        return None;
      }
      if |entries| >= MAX_ENTRIES {
        entries := map[];
      }
      entries := entries[key := checker.value];
    }
  }

  /**
   * The cache after any sequence of stores. Requests run concurrently and the lock is released
   * between the failed lookup and the store, so a store may follow any other step.
   */
  function Cached(net: NetLib, stores: seq<seq<string>>): Entries {
    if stores == [] then map[]
    else
      var entries, rules := Cached(net, stores[..|stores| - 1]), stores[|stores| - 1];
      if rules == [] || Build(net, rules).None? then entries
      else Stored(entries, RuleSetKey(rules), Build(net, rules).value)
  }

  lemma StoredIsBounded(entries: Entries, key: string, checker: Checker)
    requires |entries| <= MAX_ENTRIES
    ensures |Stored(entries, key, checker)| <= MAX_ENTRIES
  {
    if |entries| < MAX_ENTRIES {
      var after := entries[key := checker];
      assert after.Keys == entries.Keys + {key};
      assert |after| == |after.Keys| && |entries| == |entries.Keys|;
      if key in entries {
        assert entries.Keys + {key} == entries.Keys;
      }
    }
  }

  lemma {:induction false} CacheStaysBounded(net: NetLib, stores: seq<seq<string>>)
    ensures |Cached(net, stores)| <= MAX_ENTRIES
  {
    hide Build, RuleSetKey, Stored;
    if stores != [] {
      CacheStaysBounded(net, stores[..|stores| - 1]);
      var entries, rules := Cached(net, stores[..|stores| - 1]), stores[|stores| - 1];
      if rules != [] && Build(net, rules).Some? {
        StoredIsBounded(entries, RuleSetKey(rules), Build(net, rules).value);
      }
    }
  }

  /** An answer that no caller can tell from a checker built on the spot. */
  ghost predicate SameAsFresh(net: NetLib, answer: Option<Checker>, rules: seq<string>) {
    && (answer.None? <==> Build(net, rules).None?)
    && (answer.Some? ==> forall ip :: Allows(net, answer.value, ip) <==> Allows(net, Build(net, rules).value, ip))
  }

  /** Over every history, a lookup of comma-free rules is indistinguishable from building the checker anew. */
  lemma CacheIsTransparent(net: NetLib, stores: seq<seq<string>>, rules: seq<string>)
    requires rules != [] && FreeOf(rules, ',')
    requires forall s :: s in stores ==> FreeOf(s, ',')
    ensures SameAsFresh(net, Answer(net, Cached(net, stores), rules), rules)
  {
    var entries, key := Cached(net, stores), RuleSetKey(rules);
    if key in entries {
      var origin := EntriesComeFromStores(net, stores, key);
      SameKeySameChecker(net, origin, rules);
    }
  }

  lemma {:induction false} EntriesComeFromStores(net: NetLib, stores: seq<seq<string>>, key: string)
    returns (rules: seq<string>)
    requires key in Cached(net, stores)
    ensures rules in stores && rules != [] && RuleSetKey(rules) == key
    ensures Build(net, rules) == Some(Cached(net, stores)[key])
    decreases |stores|
  {
    rules := stores[|stores| - 1];
    if rules == [] || Build(net, rules).None? || RuleSetKey(rules) != key {
      rules := EntriesComeFromStores(net, stores[..|stores| - 1], key);
    }
  }

  lemma SameKeySameChecker(net: NetLib, a: seq<string>, b: seq<string>)
    requires a != [] && b != [] && FreeOf(a, ',') && FreeOf(b, ',') && RuleSetKey(a) == RuleSetKey(b)
    ensures Build(net, a).None? <==> Build(net, b).None?
    ensures Build(net, a).Some? ==>
      forall ip :: Allows(net, Build(net, a).value, ip) <==> Allows(net, Build(net, b).value, ip)
  {
    KeyIdentifiesRules(a, b);
    forall rule
      ensures rule in a <==> rule in b
    {
      assert rule in multiset(a) <==> rule in multiset(b);
    }
    OrderDoesNotMatter(net, a, b);
  }

  /** With commas allowed everywhere, the answer is right exactly when the rules have none or the key is not cached. */
  lemma TransparentIff(net: NetLib, stores: seq<seq<string>>, rules: seq<string>)
    requires Lawful(net) && rules != []
    ensures SameAsFresh(net, Answer(net, Cached(net, stores), rules), rules)
      <==> FreeOf(rules, ',') || RuleSetKey(rules) !in Cached(net, stores)
  {
    var entries, key := Cached(net, stores), RuleSetKey(rules);
    if key in entries {
      var origin := EntriesComeFromStores(net, stores, key);
      BuiltListsHaveNoComma(net, origin);
      if FreeOf(rules, ',') {
        SameKeySameChecker(net, origin, rules);
      } else if Build(net, rules).Some? {
        BuiltListsHaveNoComma(net, rules);
      }
    }
  }

  /** One rule that spells out another list's key is answered with that list's checker, though it does not parse. */
  lemma CommaRuleHitsOtherEntry(net: NetLib, rules: seq<string>)
    requires Lawful(net) && |rules| >= 2 && Build(net, rules).Some?
    ensures Build(net, [RuleSetKey(rules)]).None?
    ensures Answer(net, Cached(net, [rules]), [RuleSetKey(rules)]) == Build(net, rules)
  {
    var key := RuleSetKey(rules);
    SortKeepsMembers(rules);
    JoinOfSeveralHasSeparator(Sort(rules), ',');
    CommaRuleIsBad(net, key);
    CheckerMeansItsRules(net, [key]);
    assert [key][0] in [key];
    assert Sort([key]) == [key] by {
      SortKeepsMembers([key]);
      assert Sort([key])[0] in Sort([key]);
    }
    assert Cached(net, [rules][..0]) == map[];
  }

  // ---------------------------------------------------------------- the middleware

  /** What the filter does with a request, given the checkers the cache answered with. */
  ghost predicate Forwards(net: NetLib, block: Option<Checker>, allow: Option<Checker>, ip: string) {
    && (block.Some? ==> !Allows(net, block.value, ip))
    && (allow.Some? ==> Allows(net, allow.value, ip))
  }

  /** A list the filter acts on: neither empty nor holding a rule that does not parse. */
  ghost predicate Enforced(net: NetLib, rules: seq<string>) {
    rules != [] && forall rule :: rule in rules ==> !BadRule(net, rule)
  }

  /**
   * A request passes exactly when no block rule covers it and some allow rule does, where a list
   * that is empty or holds a bad rule is not enforced. Between the two lookups the cache may change.
   */
  lemma FilterDecision(net: NetLib, atBlock: seq<seq<string>>, atAllow: seq<seq<string>>, blocklist: seq<string>,
                       allowlist: seq<string>, ip: string)
    requires FreeOf(blocklist, ',') && FreeOf(allowlist, ',')
    requires forall s :: s in atBlock || s in atAllow ==> FreeOf(s, ',')
    ensures var block := Answer(net, Cached(net, atBlock), blocklist);
      var allow := Answer(net, Cached(net, atAllow), allowlist);
      Forwards(net, block, allow, ip) <==>
        && (Enforced(net, blocklist) ==> !ListAllows(net, blocklist, ip))
        && (Enforced(net, allowlist) ==> ListAllows(net, allowlist, ip))
  {
    CheckerMeansItsRules(net, blocklist);
    CheckerMeansItsRules(net, allowlist);
    if blocklist != [] {
      CacheIsTransparent(net, atBlock, blocklist);
    }
    if allowlist != [] {
      CacheIsTransparent(net, atAllow, allowlist);
    }
  }

  /** One rule that does not parse takes its whole list out of force: with no other list, every address passes. */
  lemma BadRuleForwardsEveryone(net: NetLib, atBlock: seq<seq<string>>, atAllow: seq<seq<string>>,
                                rules: seq<string>, bad: string, ip: string)
    requires FreeOf(rules, ',') && bad in rules && BadRule(net, bad)
    requires forall s :: s in atBlock || s in atAllow ==> FreeOf(s, ',')
    ensures Forwards(net, Answer(net, Cached(net, atBlock), []), Answer(net, Cached(net, atAllow), rules), ip)
    ensures Forwards(net, Answer(net, Cached(net, atBlock), rules), Answer(net, Cached(net, atAllow), []), ip)
  {
    FilterDecision(net, atBlock, atAllow, [], rules, ip);
    FilterDecision(net, atBlock, atAllow, rules, [], ip);
  }
}
