/** What compiled routing sections do to a connection under Xray's first-match semantics. */
module PolicyRouting {
  import opened Text
  import opened Sorting
  import opened StringSets
  import opened PolicyModel
  import opened PolicyCompiler

  datatype Conn = Conn(user: string, host: string, ip: string, port: nat, network: string)

  /** How Xray reads what this module keeps opaque: the operator's own rules, `domain` and
      `ip` selectors. Every theorem holds for all of them. */
  datatype Sem = Sem(operator: (string, Conn) -> bool, domain: (string, Conn) -> bool, ip: (string, Conn) -> bool)

  ghost predicate Selects(sem: Sem, sel: Selector, c: Conn) {
    match sel
    case DnsPort => c.port == 53 && (c.network == "tcp" || c.network == "udp")
    case Domain(d) => sem.domain(d, c)
    case IP(cidr) => sem.ip(cidr, c)
    case Everything => true
  }

  ghost predicate Matches(sem: Sem, r: Rule, c: Conn) {
    match r
    case Operator(_, body) => sem.operator(body, c)
    case Generated(_, user, sel, _) => c.user == user && Selects(sem, sel, c)
  }

  /** The first rule from position `i` on that matches. */
  ghost function MatchFrom(sem: Sem, rules: seq<Rule>, c: Conn, i: nat): (r: Option<Rule>)
    requires i <= |rules|
    ensures r.Some? ==> exists k :: i <= k < |rules| && rules[k] == r.value && Matches(sem, rules[k], c)
    ensures r.None? ==> forall k :: i <= k < |rules| ==> !Matches(sem, rules[k], c)
    decreases |rules| - i
  {
    if i == |rules| then None
    else if Matches(sem, rules[i], c) then Some(rules[i])
    else MatchFrom(sem, rules, c, i + 1)
  }

  ghost function FirstMatch(sem: Sem, rules: seq<Rule>, c: Conn): Option<Rule> {
    MatchFrom(sem, rules, c, 0)
  }

  /** The rule list of a config, without the elements that are no rules. */
  ghost function RulesOf(cfg: Config): seq<Rule> {
    if cfg.routing.Undecodable? || !cfg.routing.rules.List? || !AllObjects(cfg.routing.rules.items) then [] else
      var items := cfg.routing.rules.items;
      seq(|items|, i requires 0 <= i < |items| => items[i].rule)
  }

  /** A config as DecorateXrayConfig hands it over: assembled afresh, so without generated rules. */
  ghost predicate Clean(cfg: Config) {
    forall i :: 0 <= i < |RulesOf(cfg)| ==> !IsCatX(RulesOf(cfg)[i].tag)
  }

  lemma {:induction false} MatchSuffix(sem: Sem, a: seq<Rule>, b: seq<Rule>, c: Conn, i: nat)
    requires i <= |b|
    ensures MatchFrom(sem, a + b, c, |a| + i) == MatchFrom(sem, b, c, i)
    decreases |b| - i
  {
    hide Matches;
    if i < |b| {
      assert (a + b)[|a| + i] == b[i];
      MatchSuffix(sem, a, b, c, i + 1);
    }
  }

  lemma {:induction false} MatchPrefix(sem: Sem, a: seq<Rule>, b: seq<Rule>, c: Conn, i: nat)
    requires i <= |a|
    ensures MatchFrom(sem, a + b, c, i) ==
      if MatchFrom(sem, a, c, i).Some? then MatchFrom(sem, a, c, i) else FirstMatch(sem, b, c)
    decreases |a| - i
  {
    hide Matches;
    if i < |a| {
      assert (a + b)[i] == a[i];
      MatchPrefix(sem, a, b, c, i + 1);
    } else {
      MatchSuffix(sem, a, b, c, 0);
    }
  }

  /** First match over three blocks tries them in turn. */
  lemma MatchBlocks(sem: Sem, front: seq<Rule>, mid: seq<Rule>, back: seq<Rule>, c: Conn)
    ensures FirstMatch(sem, front + mid + back, c) ==
      if FirstMatch(sem, front, c).Some? then FirstMatch(sem, front, c)
      else if FirstMatch(sem, mid, c).Some? then FirstMatch(sem, mid, c)
      else FirstMatch(sem, back, c)
  {
    hide Matches, MatchFrom;
    MatchPrefix(sem, front + mid, back, c, 0);
    MatchPrefix(sem, front, mid, c, 0);
  }

  // ----- who the generated rules are for

  /** A rule that quarantine or managed DNS of decision `d` puts in front of the operator's:
      plaintext DNS to a dns outbound, one allowlist entry, or the block. */
  ghost predicate FrontRuleOf(net: Net, outs: Outbounds, d: Decision, r: Rule) {
    && r.Generated? && r.user == d.clientEmail
    && match r.sel
       case DnsPort => d.managedDNS && AnswersDns(outs, d.dnsOutboundTag, r.outbound)
       case Domain(s) => d.quarantined && r.outbound == "direct" && exists k :: 0 <= k < |d.quarantineAllowlist| && StandsFor(net, d.quarantineAllowlist[k], s)
       case Everything => d.quarantined && r.outbound == "blocked"
       case IP(_) => false
  }

  /** A rule for one destination of decision `d`. */
  ghost predicate BackRuleOf(net: Net, outs: Outbounds, d: Decision, r: Rule) {
    && r.Generated? && r.user == d.clientEmail && !d.quarantined && LeavesBy(outs, d.action, r.outbound)
    && (exists i: nat :: r.tag == PolicyTag(d, i))
    && exists k :: 0 <= k < |d.destinations| && SelectorOf(net, d.destinations[k], r.sel)
  }

  /** What a rule for the destination text `raw` selects. */
  ghost predicate SelectorOf(net: Net, raw: string, sel: Selector) {
    match sel
    case IP(cidr) => StandsFor(net, raw, "ip:" + cidr)
    case Domain(d) => StandsFor(net, raw, d) && !("ip:" <= d)
    case _ => false
  }

  lemma SelectSpec(net: Net, raw: string, s: string)
    requires StandsFor(net, raw, s)
    ensures SelectorOf(net, raw, Select(s))
  {
    hide StandsFor;
    assert "ip:" <= s ==> s == "ip:" + s[3..];
  }

  ghost predicate FrontOf(net: Net, outs: Outbounds, ds: seq<Decision>, n: nat, r: Rule)
    requires n <= |ds|
  {
    exists j :: 0 <= j < n && FrontRuleOf(net, outs, ds[j], r)
  }

  ghost predicate BackOf(net: Net, outs: Outbounds, ds: seq<Decision>, n: nat, r: Rule)
    requires n <= |ds|
  {
    exists j :: 0 <= j < n && BackRuleOf(net, outs, ds[j], r)
  }

  ghost predicate AllCatX(rules: seq<Rule>) {
    forall i :: 0 <= i < |rules| ==> IsCatX(rules[i].tag)
  }

  lemma TagsAreCatX(d: Decision, i: nat)
    ensures IsCatX(PolicyTag(d, i)) && IsCatX(QuarantineTag(d)) && IsCatX(AllowTag(d, i)) && IsCatX(DnsTag(d))
  {
    hide NatToString, StableClient;
    var p, q, n := RULE_TAG_PREFIX, QUARANTINE_TAG_PREFIX, DNS_TAG_PREFIX;
    assert PolicyTag(d, i)[..|p|] == p;
    assert QuarantineTag(d)[..|q|] == q;
    assert AllowTag(d, i)[..|q|] == q;
    assert DnsTag(d)[..|n|] == n;
  }

  lemma {:induction false} AllowFacts(net: Net, outs: Outbounds, d: Decision, n: nat)
    requires n <= |d.quarantineAllowlist| && AllowRules(net, d, n).Ok? && d.quarantined
    ensures var rules := AllowRules(net, d, n).value;
      && AllCatX(rules)
      && forall i :: 0 <= i < |rules| ==> FrontRuleOf(net, outs, d, rules[i])
    decreases n
  {
    hide Normalize, IsCatX, AllowTag, StandsFor;
    if n > 0 {
      AllowFacts(net, outs, d, n - 1);
      NormalizeSpec(net, d.policyID, d.quarantineAllowlist[n - 1]);
      TagsAreCatX(d, n - 1);
    }
  }

  lemma FrontFacts(net: Net, outs: Outbounds, d: Decision)
    requires FrontRules(net, outs, d).Ok?
    ensures var rules := FrontRules(net, outs, d).value;
      && AllCatX(rules)
      && (forall i :: 0 <= i < |rules| ==> FrontRuleOf(net, outs, d, rules[i]))
      && (d.quarantined ==> CatchAll(d) in rules)
  {
    hide Normalize, IsCatX, AllowTag, DnsTag, QuarantineTag;
    TagsAreCatX(d, 0);
    var dns := DnsRules(outs, d).value;
    if d.quarantined {
      AllowFacts(net, outs, d, |d.quarantineAllowlist|);
      var rules := FrontRules(net, outs, d).value;
      assert rules[|rules| - 1] == CatchAll(d);
    }
  }

  lemma {:induction false} AddBackFacts(net: Net, outs: Outbounds, d: Decision, outbound: string, dests: seq<string>, n: nat, acc: Acc)
    requires n <= |dests| && !d.quarantined && d.action in ["allow", "deny"]
    requires SelectOutbound(outs, d.action) == Ok(outbound) && Supported(net, d.policyID, d.destinations) == Ok(dests)
    ensures var r := AddBack(d, outbound, dests, n, acc);
      && r.front == acc.front
      && acc.back <= r.back
      && (AllCatX(acc.back) ==> AllCatX(r.back))
      && forall i :: |acc.back| <= i < |r.back| ==> BackRuleOf(net, outs, d, r.back[i])
    decreases n
  {
    hide PolicyTag, Select, IsCatX, SelectOutbound, Supported, LeavesBy, StandsFor, SelectorOf;
    if n > 0 {
      AddBackFacts(net, outs, d, outbound, dests, n - 1, acc);
      TagsAreCatX(d, n - 1);
      SelectOutboundSpec(outs, d.action);
      SupportedMeans(net, d.policyID, d.destinations);
      assert dests[n - 1] in dests;
      var k :| 0 <= k < |d.destinations| && StandsFor(net, d.destinations[k], dests[n - 1]);
      SelectSpec(net, d.destinations[k], dests[n - 1]);
    }
  }

  /** Everything generated carries a generated tag and belongs to a decision of its user, and
      every quarantined decision has its block in front. */
  ghost predicate AccFacts(net: Net, outs: Outbounds, ds: seq<Decision>, n: nat, acc: Acc)
    requires n <= |ds|
  {
    && AllCatX(acc.front) && AllCatX(acc.back)
    && (forall i :: 0 <= i < |acc.front| ==> FrontOf(net, outs, ds, n, acc.front[i]))
    && (forall i :: 0 <= i < |acc.back| ==> BackOf(net, outs, ds, n, acc.back[i]))
    && (forall j :: 0 <= j < n && ds[j].quarantined ==> CatchAll(ds[j]) in acc.front)
  }

  lemma FactsGrow(net: Net, outs: Outbounds, ds: seq<Decision>, n: nat, acc: Acc)
    requires 0 < n <= |ds| && AccFacts(net, outs, ds, n - 1, acc)
    ensures forall i :: 0 <= i < |acc.front| ==> FrontOf(net, outs, ds, n, acc.front[i])
    ensures forall i :: 0 <= i < |acc.back| ==> BackOf(net, outs, ds, n, acc.back[i])
  {
    hide FrontRuleOf, BackRuleOf, IsCatX;
  }

  lemma {:induction false} EmitFacts(net: Net, outs: Outbounds, ds: seq<Decision>, n: nat)
    requires n <= |ds| && EmitAll(net, outs, ds, n).Ok?
    ensures AccFacts(net, outs, ds, n, EmitAll(net, outs, ds, n).value)
    decreases n
  {
    hide FrontRules, AddBack, Supported, SelectOutbound, FrontRuleOf, BackRuleOf, IsCatX, CatchAll;
    if n > 0 {
      EmitFacts(net, outs, ds, n - 1);
      var d, before, after := ds[n - 1], EmitAll(net, outs, ds, n - 1).value, EmitAll(net, outs, ds, n).value;
      FactsGrow(net, outs, ds, n, before);
      FrontFacts(net, outs, d);
      var front := FrontRules(net, outs, d).value;
      var mid := before.(front := before.front + front);
      if !d.quarantined {
        AddBackFacts(net, outs, d, SelectOutbound(outs, d.action).value, Supported(net, d.policyID, d.destinations).value,
                     |Supported(net, d.policyID, d.destinations).value|, mid);
      }
      assert after.front == before.front + front;
      forall i | 0 <= i < |after.front| ensures FrontOf(net, outs, ds, n, after.front[i]) {
        if i >= |before.front| { assert FrontRuleOf(net, outs, ds[n - 1], after.front[i]); }
      }
      forall i | 0 <= i < |after.back| ensures BackOf(net, outs, ds, n, after.back[i]) {
        if i >= |before.back| { assert BackRuleOf(net, outs, ds[n - 1], after.back[i]); }
      }
    }
  }

  // ----- the shape of a compiled config

  lemma {:induction false} KeptAll(items: seq<Item>, n: nat)
    requires AllObjects(items) && n <= |items|
    requires forall i :: 0 <= i < n ==> !IsCatX(items[i].rule.tag)
    ensures |Kept(items, n)| == n && forall i :: 0 <= i < n ==> Kept(items, n)[i] == items[i].rule
    decreases n
  {
    if n > 0 { KeptAll(items, n - 1); }
  }

  /** What Compile returns when it succeeds, by cases. */
  lemma CompiledIs(net: Net, cfg: Config, ds: seq<Decision>) returns (acc: Acc)
    requires ds != [] && Compiled(net, cfg, ds).err.None?
    ensures EmitAll(net, cfg.outbounds, Ordered(ds), |Ordered(ds)|) == Ok(acc)
    ensures !cfg.routing.Undecodable? && !cfg.routing.rules.NotAList? && AllObjects(ItemsOf(cfg.routing.rules))
    ensures var items := ItemsOf(cfg.routing.rules); var rules := acc.front + Kept(items, |items|) + acc.back;
      Compiled(net, cfg, ds).cfg == if |rules| == |items| then cfg else WithRules(cfg, rules)
  {
    hide EmitAll, Ordered, Kept, AllObjects, Objects;
    acc := EmitAll(net, cfg.outbounds, Ordered(ds), |Ordered(ds)|).value;
  }

  ghost function WithRules(cfg: Config, rules: seq<Rule>): Config
    requires !cfg.routing.Undecodable?
  {
    cfg.(routing := cfg.routing.(rules := List(Objects(rules))))
  }

  lemma RulesBack(cfg: Config, rules: seq<Rule>)
    requires !cfg.routing.Undecodable?
    ensures RulesOf(WithRules(cfg, rules)) == rules
  {
  }

  lemma KeptClean(cfg: Config)
    requires Clean(cfg) && !cfg.routing.Undecodable? && !cfg.routing.rules.NotAList? && AllObjects(ItemsOf(cfg.routing.rules))
    ensures var items := ItemsOf(cfg.routing.rules); Kept(items, |items|) == RulesOf(cfg) && |items| == |RulesOf(cfg)|
  {
    hide IsCatX, Kept;
    var items := ItemsOf(cfg.routing.rules);
    assert forall i :: 0 <= i < |items| ==> items[i].rule == RulesOf(cfg)[i];
    KeptAll(items, |items|);
  }

  /** On a fresh config, compilation puts the front rules before the operator's list and the
      policy rules after it; even when it hands back the input. */
  lemma CompiledShape(net: Net, cfg: Config, ds: seq<Decision>) returns (acc: Acc)
    requires Clean(cfg) && ds != [] && Compiled(net, cfg, ds).err.None?
    ensures EmitAll(net, cfg.outbounds, Ordered(ds), |Ordered(ds)|) == Ok(acc)
    ensures RulesOf(Compiled(net, cfg, ds).cfg) == acc.front + RulesOf(cfg) + acc.back
    ensures AccFacts(net, cfg.outbounds, Ordered(ds), |Ordered(ds)|, acc)
  {
    hide EmitAll, Ordered, IsCatX, AccFacts, Compiled, Kept, RulesOf, Clean, WithRules;
    acc := CompiledIs(net, cfg, ds);
    KeptClean(cfg);
    var rules := acc.front + RulesOf(cfg) + acc.back;
    RulesBack(cfg, rules);
    if |rules| == |RulesOf(cfg)| {
      assert acc.front == [] && acc.back == [];
    }
    EmitFacts(net, cfg.outbounds, Ordered(ds), |Ordered(ds)|);
  }

  lemma OrderedElements(ds: seq<Decision>)
    ensures forall d :: d in Ordered(ds) <==> d in ds
  {
    SortPermutes(ds, DecisionLess);
  }

  lemma NoMatch(sem: Sem, rules: seq<Rule>, c: Conn)
    requires forall i :: 0 <= i < |rules| ==> rules[i].Generated? && rules[i].user != c.user
    ensures FirstMatch(sem, rules, c).None?
  {
  }

  // ----- the theorems

  /** A user with no decision is routed exactly as in the original config. */
  lemma UndecidedUnaffected(net: Net, cfg: Config, ds: seq<Decision>, sem: Sem, c: Conn)
    requires Clean(cfg) && forall d :: d in ds ==> d.clientEmail != c.user
    ensures FirstMatch(sem, RulesOf(Compiled(net, cfg, ds).cfg), c) == FirstMatch(sem, RulesOf(cfg), c)
  {
    hide FirstMatch, EmitAll, Ordered;
    if ds != [] && Compiled(net, cfg, ds).err.None? {
      var acc := CompiledShape(net, cfg, ds);
      OrderedElements(ds);
      MatchBlocks(sem, acc.front, RulesOf(cfg), acc.back, c);
      NoMatch(sem, acc.front, c);
      NoMatch(sem, acc.back, c);
    }
  }

  /** A user whose decisions neither quarantine nor manage DNS sees every operator rule before
      the rules of those decisions, which only apply where no operator rule does. */
  lemma OperatorRulesFirst(net: Net, cfg: Config, ds: seq<Decision>, sem: Sem, c: Conn)
    requires Clean(cfg) && Compiled(net, cfg, ds).err.None?
    requires forall d :: d in ds && d.clientEmail == c.user ==> !d.quarantined && !d.managedDNS
    ensures var before, after := FirstMatch(sem, RulesOf(cfg), c), FirstMatch(sem, RulesOf(Compiled(net, cfg, ds).cfg), c);
      && (before.Some? ==> after == before)
      && (before.None? && after.Some? ==> exists d :: d in ds && d.clientEmail == c.user && BackRuleOf(net, cfg.outbounds, d, after.value))
  {
    hide FirstMatch, EmitAll, Ordered;
    if ds != [] {
      var acc := CompiledShape(net, cfg, ds);
      OrderedElements(ds);
      MatchBlocks(sem, acc.front, RulesOf(cfg), acc.back, c);
      forall i | 0 <= i < |acc.front| ensures acc.front[i].Generated? && acc.front[i].user != c.user {
        var j :| 0 <= j < |Ordered(ds)| && FrontRuleOf(net, cfg.outbounds, Ordered(ds)[j], acc.front[i]);
        assert Ordered(ds)[j] in Ordered(ds);
      }
      NoMatch(sem, acc.front, c);
      if FirstMatch(sem, acc.back, c).Some? {
        BackMatch(net, cfg.outbounds, sem, Ordered(ds), acc.back, c);
      }
    }
  }

  lemma BackMatch(net: Net, outs: Outbounds, sem: Sem, ds: seq<Decision>, back: seq<Rule>, c: Conn)
    requires FirstMatch(sem, back, c).Some?
    requires forall i :: 0 <= i < |back| ==> BackOf(net, outs, ds, |ds|, back[i])
    ensures exists d :: d in ds && d.clientEmail == c.user && BackRuleOf(net, outs, d, FirstMatch(sem, back, c).value)
  {
    var i :| 0 <= i < |back| && back[i] == FirstMatch(sem, back, c).value && Matches(sem, back[i], c);
    var j :| 0 <= j < |ds| && BackRuleOf(net, outs, ds[j], back[i]);
    assert ds[j] in ds;
  }

  /** Whatever the operator's rules and the other decisions are, every connection of a client
      with a quarantined decision first-matches a DNS rule, an allowlist rule or the block of
      one of that client's own decisions. */
  lemma QuarantineIsolates(net: Net, cfg: Config, ds: seq<Decision>, sem: Sem, c: Conn, q: Decision)
    requires Clean(cfg) && Compiled(net, cfg, ds).err.None?
    requires q in ds && q.quarantined && q.clientEmail == c.user
    ensures var m := FirstMatch(sem, RulesOf(Compiled(net, cfg, ds).cfg), c);
      m.Some? && exists d :: d in ds && d.clientEmail == c.user && FrontRuleOf(net, cfg.outbounds, d, m.value)
  {
    hide FirstMatch, EmitAll, Ordered, MatchFrom;
    var acc := CompiledShape(net, cfg, ds);
    OrderedElements(ds);
    MatchBlocks(sem, acc.front, RulesOf(cfg), acc.back, c);
    var j :| 0 <= j < |Ordered(ds)| && Ordered(ds)[j] == q;
    var k :| 0 <= k < |acc.front| && acc.front[k] == CatchAll(q);
    FrontMatch(net, cfg.outbounds, sem, Ordered(ds), acc.front, c, k);
  }

  lemma FrontMatch(net: Net, outs: Outbounds, sem: Sem, ds: seq<Decision>, front: seq<Rule>, c: Conn, k: nat)
    requires forall i :: 0 <= i < |front| ==> FrontOf(net, outs, ds, |ds|, front[i])
    requires k < |front| && Matches(sem, front[k], c)
    ensures var m := FirstMatch(sem, front, c);
      m.Some? && exists d :: d in ds && d.clientEmail == c.user && FrontRuleOf(net, outs, d, m.value)
  {
    var m := FirstMatch(sem, front, c);
    var i :| 0 <= i < |front| && front[i] == m.value && Matches(sem, front[i], c);
    var j :| 0 <= j < |ds| && FrontRuleOf(net, outs, ds[j], front[i]);
    assert ds[j] in ds;
  }

  // ----- exactly where a client with one decision goes

  ghost predicate OnlyDecision(ds: seq<Decision>, d: Decision) {
    d in ds && forall e :: e in ds && e.clientEmail == d.clientEmail ==> e == d
  }

  ghost predicate PlainDns(c: Conn) {
    c.port == 53 && c.network in ["tcp", "udp"]
  }

  /** The connection matches the domain an allowlist entry stands for. */
  ghost predicate Allowlisted(net: Net, sem: Sem, d: Decision, c: Conn) {
    exists k, s :: 0 <= k < |d.quarantineAllowlist| && StandsFor(net, d.quarantineAllowlist[k], s) && sem.domain(s, c)
  }

  /** Where the rules in front send a connection of the decision's client: plaintext DNS to the dns
      outbound if DNS is managed; then, in quarantine, what is allowlisted to "direct" and all else
      to "blocked". Nothing else is taken. */
  ghost predicate FrontExit(net: Net, outs: Outbounds, sem: Sem, d: Decision, c: Conn, m: Option<Rule>) {
    if d.managedDNS && PlainDns(c) then m.Some? && m.value.Generated? && AnswersDns(outs, d.dnsOutboundTag, m.value.outbound)
    else if d.quarantined then m.Some? && m.value.Generated? && m.value.outbound == if Allowlisted(net, sem, d, c) then "direct" else "blocked"
    else m.None?
  }

  lemma {:induction false} AllowMatch(net: Net, sem: Sem, d: Decision, n: nat, c: Conn)
    requires n <= |d.quarantineAllowlist| && AllowRules(net, d, n).Ok? && d.clientEmail == c.user
    ensures var m := FirstMatch(sem, AllowRules(net, d, n).value, c);
      && (m.Some? <==> exists k, s :: 0 <= k < n && StandsFor(net, d.quarantineAllowlist[k], s) && sem.domain(s, c))
      && (m.Some? ==> m.value.Generated? && m.value.outbound == "direct")
    decreases n
  {
    hide Normalize, AllowTag, StandsFor;
    if n > 0 {
      AllowMatch(net, sem, d, n - 1, c);
      NormalizeSpec(net, d.policyID, d.quarantineAllowlist[n - 1]);
      var rules := AllowRules(net, d, n - 1).value;
      var s := Normalize(net, d.policyID, d.quarantineAllowlist[n - 1]).destination;
      var last := Generated(AllowTag(d, n - 1), d.clientEmail, Domain(s), "direct");
      MatchPrefix(sem, rules, [last], c, 0);
      OneRule(sem, last, c);
    }
  }

  lemma OneRule(sem: Sem, r: Rule, c: Conn)
    ensures FirstMatch(sem, [r], c) == if Matches(sem, r, c) then Some(r) else None
  {
    assert MatchFrom(sem, [r], c, 1) == None;
  }

  /** The rules of the one decision. */
  lemma OwnFront(net: Net, outs: Outbounds, sem: Sem, d: Decision, c: Conn)
    requires FrontRules(net, outs, d).Ok? && d.clientEmail == c.user
    ensures FrontExit(net, outs, sem, d, c, FirstMatch(sem, FrontRules(net, outs, d).value, c))
  {
    hide FirstMatch, AllowRules, Matches, StandsFor, AllowTag, DnsTag;
    var dns := DnsRules(outs, d).value;
    DnsMatch(outs, sem, d, c);
    if d.quarantined {
      var allow := AllowRules(net, d, |d.quarantineAllowlist|).value;
      AllowMatch(net, sem, d, |d.quarantineAllowlist|, c);
      MatchBlocks(sem, dns, allow, [CatchAll(d)], c);
      OneRule(sem, CatchAll(d), c);
      BlockMatches(sem, d, c);
    }
  }

  lemma BlockMatches(sem: Sem, d: Decision, c: Conn)
    requires d.clientEmail == c.user
    ensures Matches(sem, CatchAll(d), c)
  {
  }

  lemma DnsMatch(outs: Outbounds, sem: Sem, d: Decision, c: Conn)
    requires DnsRules(outs, d).Ok? && d.clientEmail == c.user
    ensures var m := FirstMatch(sem, DnsRules(outs, d).value, c);
      && (m.Some? <==> d.managedDNS && PlainDns(c))
      && (m.Some? ==> m.value.Generated? && AnswersDns(outs, d.dnsOutboundTag, m.value.outbound))
  {
    hide DnsTag;
    if d.managedDNS { OneRule(sem, DnsRules(outs, d).value[0], c); }
  }

  /** All the rules in front, of every decision, send its client where its own rules do. */
  lemma {:induction false} FrontOfOnly(net: Net, outs: Outbounds, sem: Sem, ds: seq<Decision>, n: nat, d: Decision, c: Conn)
    requires n <= |ds| && EmitAll(net, outs, ds, n).Ok? && OnlyDecision(ds, d) && d.clientEmail == c.user
    ensures var m := FirstMatch(sem, EmitAll(net, outs, ds, n).value.front, c);
      if d in ds[..n] then FrontExit(net, outs, sem, d, c, m) else m.None?
    decreases n
  {
    hide MatchFrom, EmitOne, FrontRules, FrontExit, FrontRuleOf, IsCatX;
    if n == 0 {
      NoMatch(sem, [], c);
    } else {
      FrontOfOnly(net, outs, sem, ds, n - 1, d, c);
      var e, before, after := ds[n - 1], EmitAll(net, outs, ds, n - 1).value.front, EmitAll(net, outs, ds, n).value.front;
      EmitFront(net, outs, e, EmitAll(net, outs, ds, n - 1).value);
      var own := FrontRules(net, outs, e).value;
      assert after == before + own;
      MatchPrefix(sem, before, own, c, 0);
      assert ds[..n] == ds[..n - 1] + [e] && e in ds;
      if e == d {
        OwnFront(net, outs, sem, d, c);
        ExitIs(net, outs, sem, d, c, FirstMatch(sem, before, c), FirstMatch(sem, own, c));
      } else {
        FrontFacts(net, outs, e);
        Foreign(net, outs, e, own, c);
        NoMatch(sem, own, c);
      }
    }
  }

  lemma Foreign(net: Net, outs: Outbounds, e: Decision, rules: seq<Rule>, c: Conn)
    requires e.clientEmail != c.user && forall i :: 0 <= i < |rules| ==> FrontRuleOf(net, outs, e, rules[i])
    ensures forall i :: 0 <= i < |rules| ==> rules[i].Generated? && rules[i].user != c.user
  {
  }

  /** A decision that is listed twice has its rules twice, which changes nothing. */
  lemma ExitIs(net: Net, outs: Outbounds, sem: Sem, d: Decision, c: Conn, a: Option<Rule>, b: Option<Rule>)
    requires (a.None? || FrontExit(net, outs, sem, d, c, a)) && FrontExit(net, outs, sem, d, c, b)
    ensures FrontExit(net, outs, sem, d, c, if a.Some? then a else b)
  {
  }

  lemma EmitFront(net: Net, outs: Outbounds, d: Decision, acc: Acc)
    requires EmitOne(net, outs, d, acc).Ok?
    ensures FrontRules(net, outs, d).Ok? && EmitOne(net, outs, d, acc).value.front == acc.front + FrontRules(net, outs, d).value
  {
    hide FrontRules, AddBack, Supported, SelectOutbound, IsCatX;
    if !d.quarantined {
      BackLeavesFront(d, SelectOutbound(outs, d.action).value, Supported(net, d.policyID, d.destinations).value,
                      |Supported(net, d.policyID, d.destinations).value|, acc.(front := acc.front + FrontRules(net, outs, d).value));
    }
  }

  lemma {:induction false} BackLeavesFront(d: Decision, outbound: string, dests: seq<string>, n: nat, acc: Acc)
    requires n <= |dests|
    ensures AddBack(d, outbound, dests, n, acc).front == acc.front
    decreases n
  {
    hide PolicyTag, Select;
    if n > 0 { BackLeavesFront(d, outbound, dests, n - 1, acc); }
  }

  /** A client with one decision, whatever the operator's rules and the other clients' decisions:
      managed plaintext DNS goes to the first dns outbound that the decision admits; in quarantine,
      what is allowlisted goes direct and everything else is blocked. */
  lemma OnlyDecisionExit(net: Net, cfg: Config, ds: seq<Decision>, sem: Sem, d: Decision, c: Conn)
    requires Clean(cfg) && Compiled(net, cfg, ds).err.None? && OnlyDecision(ds, d) && d.clientEmail == c.user
    requires d.quarantined || (d.managedDNS && PlainDns(c))
    ensures FrontExit(net, cfg.outbounds, sem, d, c, FirstMatch(sem, RulesOf(Compiled(net, cfg, ds).cfg), c))
  {
    hide FirstMatch, EmitAll, Ordered, Compiled, Clean, AnswersDns, Allowlisted;
    var acc := CompiledShape(net, cfg, ds);
    OrderedElements(ds);
    var o := Ordered(ds);
    assert o[..|o|] == o;
    FrontOfOnly(net, cfg.outbounds, sem, o, |o|, d, c);
    MatchBlocks(sem, acc.front, RulesOf(cfg), acc.back, c);
  }
}
