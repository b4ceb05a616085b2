/** Where a connection of a plainly decided client leaves: neither quarantined nor with managed DNS. */
module PolicyPlain {
  import opened Text
  import opened Sorting
  import opened PolicyModel
  import opened PolicyCompiler
  import opened PolicyRouting
  import opened PolicyAgreement

  /** The connection goes to the destination written `raw`: "ip:" and a text with a slash are
      matched as addresses, everything else as a domain. */
  ghost predicate Reaches(sem: Sem, raw: string, c: Conn) {
    var u := Bare(raw);
    && ToLower(TrimSpace(raw)) != ""
    && if "ip:" <= u then sem.ip(u[3..], c) else if '/' in u then sem.ip(u, c) else sem.domain(u, c)
  }

  /** The decision is about this user and names a destination the connection goes to. */
  ghost predicate ReachedBy(sem: Sem, d: Decision, c: Conn) {
    d.clientEmail == c.user && exists k :: 0 <= k < |d.destinations| && Reaches(sem, d.destinations[k], c)
  }

  ghost predicate PlainUser(ds: seq<Decision>, user: string) {
    forall d :: d in ds && d.clientEmail == user ==> !d.quarantined && !d.managedDNS
  }

  /** No two decisions compete for a tag. */
  ghost predicate TagsApart(ds: seq<Decision>) {
    forall a, b :: a in ds && b in ds && SameTags(a, b) ==> a == b
  }

  ghost predicate SameTags(a: Decision, b: Decision) {
    a.policyID == b.policyID && StableClient(a.clientEmail) == StableClient(b.clientEmail)
  }

  lemma SelectsReaches(net: Net, sem: Sem, raw: string, sel: Selector, c: Conn)
    requires SelectorOf(net, raw, sel)
    ensures Selects(sem, sel, c) <==> Reaches(sem, raw, c)
  {
    hide Bare, TrimSpace, ToLower;
    if sel.IP? { assert ("ip:" + sel.cidr)[3..] == sel.cidr; }
  }

  /** A rule of the decision that matches was reached by the connection, and sends it where the
      action says. */
  lemma MatchReaches(net: Net, outs: Outbounds, sem: Sem, d: Decision, r: Rule, c: Conn)
    requires BackRuleOf(net, outs, d, r) && Matches(sem, r, c)
    ensures ReachedBy(sem, d, c) && LeavesBy(outs, d.action, r.outbound)
  {
    hide SelectorOf, Reaches, LeavesBy;
    var k :| 0 <= k < |d.destinations| && SelectorOf(net, d.destinations[k], r.sel);
    SelectsReaches(net, sem, d.destinations[k], r.sel, c);
  }

  /** Whatever else is configured: if no operator rule takes the connection, a rule that does is
      for a destination it goes to, named by a decision about its user, and sends it where that
      decision's action says. */
  lemma PlainLeaves(net: Net, cfg: Config, ds: seq<Decision>, sem: Sem, c: Conn)
    requires Clean(cfg) && Compiled(net, cfg, ds).err.None? && PlainUser(ds, c.user)
    requires FirstMatch(sem, RulesOf(cfg), c).None?
    ensures var m := FirstMatch(sem, RulesOf(Compiled(net, cfg, ds).cfg), c);
      m.Some? ==> m.value.Generated? && exists d :: d in ds && ReachedBy(sem, d, c) && LeavesBy(cfg.outbounds, d.action, m.value.outbound)
  {
    hide BackRuleOf, ReachedBy, LeavesBy, Compiled, Clean, Matches, FirstMatch;
    OperatorRulesFirst(net, cfg, ds, sem, c);
    var m := FirstMatch(sem, RulesOf(Compiled(net, cfg, ds).cfg), c);
    if m.Some? {
      FirstMatches(sem, RulesOf(Compiled(net, cfg, ds).cfg), c);
      var d :| d in ds && d.clientEmail == c.user && BackRuleOf(net, cfg.outbounds, d, m.value);
      MatchReaches(net, cfg.outbounds, sem, d, m.value, c);
      BackIsGenerated(net, cfg.outbounds, d, m.value);
    }
  }

  lemma FirstMatches(sem: Sem, rules: seq<Rule>, c: Conn)
    ensures var m := FirstMatch(sem, rules, c); m.Some? ==> m.value in rules && Matches(sem, m.value, c)
  {
  }

  lemma BackIsGenerated(net: Net, outs: Outbounds, d: Decision, r: Rule)
    requires BackRuleOf(net, outs, d, r)
    ensures r.Generated?
  {
  }

  // ----- with tags that do not collide, every destination has its rule

  lemma {:induction false} AddBackHas(d: Decision, outbound: string, dests: seq<string>, n: nat, acc: Acc, i: nat)
    requires i < n <= |dests| && PolicyTag(d, i) !in acc.seen
    ensures Generated(PolicyTag(d, i), d.clientEmail, Select(dests[i]), outbound) in AddBack(d, outbound, dests, n, acc).back
    decreases n
  {
    hide PolicyTag, Select;
    if i < n - 1 {
      AddBackHas(d, outbound, dests, n - 1, acc, i);
    } else {
      AddBackOwner(d, outbound, dests, n - 1, acc, PolicyTag(d, i), d.clientEmail);
      forall k: nat | k < i ensures PolicyTag(d, k) != PolicyTag(d, i) {
        if PolicyTag(d, k) == PolicyTag(d, i) { TagInjective(d, k, d, i); }
      }
    }
  }

  /** The rules of decision `d` match exactly the connections that reach one of its destinations,
      as long as none of its tags was taken. */
  lemma OwnRules(net: Net, outs: Outbounds, sem: Sem, d: Decision, acc: Acc, c: Conn)
    requires EmitOne(net, outs, d, acc).Ok? && !d.quarantined && d.clientEmail == c.user
    requires forall t :: HasTag(net, d, t) ==> t !in acc.seen
    requires ReachedBy(sem, d, c)
    ensures exists r :: r in EmitOne(net, outs, d, acc).value.back && Matches(sem, r, c)
  {
    hide PolicyTag, Select, SelectOutbound, Supported, AddBack, FrontRules, StandsFor, Reaches, Selects, TrimSpace;
    var k :| 0 <= k < |d.destinations| && Reaches(sem, d.destinations[k], c);
    var raw, dests := d.destinations[k], Supported(net, d.policyID, d.destinations).value;
    SupportedMeans(net, d.policyID, d.destinations);
    NotBlank(sem, raw, c);
    var s :| StandsFor(net, raw, s);
    assert s in dests;
    var i: nat :| i < |dests| && dests[i] == s;
    var outbound := SelectOutbound(outs, d.action).value;
    assert HasTag(net, d, PolicyTag(d, i));
    AddBackHas(d, outbound, dests, |dests|, acc.(front := acc.front + FrontRules(net, outs, d).value), i);
    SelectSpec(net, raw, s);
    SelectsReaches(net, sem, raw, Select(s), c);
    assert Matches(sem, Generated(PolicyTag(d, i), d.clientEmail, Select(s), outbound), c);
  }

  lemma NotBlank(sem: Sem, raw: string, c: Conn)
    requires Reaches(sem, raw, c)
    ensures TrimSpace(raw) != ""
  {
    hide TrimSpace;
    assert TrimSpace(raw) == "" ==> ToLower(TrimSpace(raw)) == "";
  }

  /** `j` is the first of `n` decisions the connection reaches. */
  ghost predicate FirstOf(sem: Sem, ds: seq<Decision>, n: nat, c: Conn, j: nat)
    requires n <= |ds|
  {
    j < n && ReachedBy(sem, ds[j], c) && forall i :: 0 <= i < j ==> !ReachedBy(sem, ds[i], c)
  }

  lemma {:induction false} FirstReached(net: Net, outs: Outbounds, sem: Sem, ds: seq<Decision>, n: nat, c: Conn)
    requires n <= |ds| && EmitAll(net, outs, ds, n).Ok? && TagsApart(ds) && PlainUser(ds, c.user)
    ensures var m := FirstMatch(sem, EmitAll(net, outs, ds, n).value.back, c);
      && (m.None? ==> forall i :: 0 <= i < n ==> !ReachedBy(sem, ds[i], c))
      && (m.Some? ==> exists j: nat :: FirstOf(sem, ds, n, c, j) && BackRuleOf(net, outs, ds[j], m.value))
    decreases n
  {
    hide EmitOne, ReachedBy, BackRuleOf, Matches, FirstMatch, TagsApart, PlainUser;
    if n == 0 {
      FirstMatches(sem, [], c);
    } else {
      FirstReached(net, outs, sem, ds, n - 1, c);
      OneMoreReached(net, outs, sem, ds, n, c);
    }
  }

  lemma OneMoreReached(net: Net, outs: Outbounds, sem: Sem, ds: seq<Decision>, n: nat, c: Conn)
    requires 0 < n <= |ds| && EmitAll(net, outs, ds, n).Ok? && TagsApart(ds) && PlainUser(ds, c.user)
    requires var m := FirstMatch(sem, EmitAll(net, outs, ds, n - 1).value.back, c);
      && (m.None? ==> forall i :: 0 <= i < n - 1 ==> !ReachedBy(sem, ds[i], c))
      && (m.Some? ==> exists j: nat :: FirstOf(sem, ds, n - 1, c, j) && BackRuleOf(net, outs, ds[j], m.value))
    ensures var m := FirstMatch(sem, EmitAll(net, outs, ds, n).value.back, c);
      && (m.None? ==> forall i :: 0 <= i < n ==> !ReachedBy(sem, ds[i], c))
      && (m.Some? ==> exists j: nat :: FirstOf(sem, ds, n, c, j) && BackRuleOf(net, outs, ds[j], m.value))
  {
    hide EmitOne, ReachedBy, BackRuleOf, Matches, MatchFrom, TagsApart;
    var d, before, after := ds[n - 1], EmitAll(net, outs, ds, n - 1).value, EmitAll(net, outs, ds, n).value;
    var added := NewRules(net, outs, d, before);
    MatchPrefix(sem, before.back, added, c, 0);
    var m, f := FirstMatch(sem, after.back, c), FirstMatch(sem, added, c);
    if FirstMatch(sem, before.back, c).Some? {
      var j: nat :| FirstOf(sem, ds, n - 1, c, j) && BackRuleOf(net, outs, ds[j], m.value);
      assert FirstOf(sem, ds, n, c, j);
    } else if m.Some? {
      FirstMatches(sem, added, c);
      MatchReaches(net, outs, sem, d, f.value, c);
      assert FirstOf(sem, ds, n, c, n - 1);
    } else if ReachedBy(sem, d, c) {
      TagsFree(net, outs, sem, ds, n, c, d);
      ReachedPlain(ds, n - 1, sem, c);
      OwnRules(net, outs, sem, d, before, c);
      SomeMatches(sem, after.back, c);
    }
  }

  lemma ReachedPlain(ds: seq<Decision>, i: nat, sem: Sem, c: Conn)
    requires i < |ds| && PlainUser(ds, c.user) && ReachedBy(sem, ds[i], c)
    ensures !ds[i].quarantined && ds[i].clientEmail == c.user
  {
    assert ds[i] in ds;
  }

  lemma SomeMatches(sem: Sem, rules: seq<Rule>, c: Conn)
    ensures (exists r :: r in rules && Matches(sem, r, c)) ==> FirstMatch(sem, rules, c).Some?
  {
  }

  /** What one decision adds behind the operator's rules. */
  lemma NewRules(net: Net, outs: Outbounds, d: Decision, acc: Acc) returns (added: seq<Rule>)
    requires EmitOne(net, outs, d, acc).Ok?
    ensures EmitOne(net, outs, d, acc).value.back == acc.back + added
    ensures forall r :: r in added ==> BackRuleOf(net, outs, d, r)
  {
    hide AddBack, FrontRules, Supported, SelectOutbound, BackRuleOf, IsCatX;
    var after := EmitOne(net, outs, d, acc).value;
    added := [];
    if !d.quarantined {
      var dests := Supported(net, d.policyID, d.destinations).value;
      var mid := acc.(front := acc.front + FrontRules(net, outs, d).value);
      AddBackFacts(net, outs, d, SelectOutbound(outs, d.action).value, dests, |dests|, mid);
      added := after.back[|acc.back|..];
      assert forall i :: 0 <= i < |added| ==> added[i] == after.back[|acc.back| + i];
    }
  }

  /** The tags of a decision are free as long as the connection reached none before it. */
  lemma TagsFree(net: Net, outs: Outbounds, sem: Sem, ds: seq<Decision>, n: nat, c: Conn, d: Decision)
    requires 0 < n <= |ds| && EmitAll(net, outs, ds, n - 1).Ok? && TagsApart(ds) && d == ds[n - 1]
    requires ReachedBy(sem, d, c) && forall i :: 0 <= i < n - 1 ==> !ReachedBy(sem, ds[i], c)
    ensures forall t :: HasTag(net, d, t) ==> t !in EmitAll(net, outs, ds, n - 1).value.seen
  {
    hide EmitAll, ReachedBy, HasTag, TagsApart;
    forall t | HasTag(net, d, t) ensures t !in EmitAll(net, outs, ds, n - 1).value.seen {
      TakenBySame(net, outs, ds, n, t);
    }
  }

  /** A tag of the n-th decision is only taken by the same decision. */
  lemma TakenBySame(net: Net, outs: Outbounds, ds: seq<Decision>, n: nat, t: string)
    requires 0 < n <= |ds| && EmitAll(net, outs, ds, n - 1).Ok? && TagsApart(ds) && HasTag(net, ds[n - 1], t)
    ensures t in EmitAll(net, outs, ds, n - 1).value.seen ==> exists j :: 0 <= j < n - 1 && ds[j] == ds[n - 1]
  {
    hide EmitAll, PolicyTag, Wants, HasRule, StableClient, FirstUser;
    var d := ds[n - 1];
    TagOwner(net, outs, ds, n - 1, t, d.clientEmail);
    if t in EmitAll(net, outs, ds, n - 1).value.seen {
      var i :| 0 <= i < Wants(net, d) && t == PolicyTag(d, i);
      var j := FirstUserIs(net, ds, n - 1, t);
      TagShared(net, ds[j], d, i);
      assert ds[j] in ds && d in ds && SameTags(ds[j], d);
    }
  }

  /** Of the decisions the connection reaches, `d` has the lowest policy id. */
  ghost predicate Lowest(sem: Sem, ds: seq<Decision>, c: Conn, d: Decision) {
    d in ds && ReachedBy(sem, d, c) && forall e :: e in ds && ReachedBy(sem, e, c) ==> d.policyID <= e.policyID
  }

  /** Where tags do not collide, a connection no operator rule takes is matched exactly if some
      decision about its user names a destination it goes to; it leaves by that decision's action,
      and of several such decisions the one with the lowest policy id counts. */
  lemma PlainRouted(net: Net, cfg: Config, ds: seq<Decision>, sem: Sem, c: Conn)
    requires Clean(cfg) && Compiled(net, cfg, ds).err.None? && PlainUser(ds, c.user) && TagsApart(ds)
    requires FirstMatch(sem, RulesOf(cfg), c).None?
    ensures var m := FirstMatch(sem, RulesOf(Compiled(net, cfg, ds).cfg), c);
      && (m.Some? <==> exists d :: d in ds && ReachedBy(sem, d, c))
      && (m.Some? ==> m.value.Generated? && exists d :: Lowest(sem, ds, c, d) && LeavesBy(cfg.outbounds, d.action, m.value.outbound))
  {
    hide EmitAll, FirstMatch, ReachedBy, LeavesBy, Compiled, Clean, RulesOf, Ordered, Matches, BackRuleOf;
    PlainLeaves(net, cfg, ds, sem, c);
    if ds == [] {
      NoDecisions(net, cfg);
    } else {
      var acc := CompiledShape(net, cfg, ds);
      OrderedElements(ds);
      MatchBlocks(sem, acc.front, RulesOf(cfg), acc.back, c);
      NoFront(net, cfg.outbounds, sem, ds, acc, c);
      ApartOrdered(ds, c.user);
      FirstReached(net, cfg.outbounds, sem, Ordered(ds), |Ordered(ds)|, c);
      var m := FirstMatch(sem, acc.back, c);
      if m.Some? {
        FirstMatches(sem, acc.back, c);
        var j: nat :| FirstOf(sem, Ordered(ds), |Ordered(ds)|, c, j) && BackRuleOf(net, cfg.outbounds, Ordered(ds)[j], m.value);
        MatchReaches(net, cfg.outbounds, sem, Ordered(ds)[j], m.value, c);
        LowestFirst(sem, ds, c, j);
      } else {
        forall d | d in ds ensures !ReachedBy(sem, d, c) {
          assert d in Ordered(ds);
        }
      }
    }
  }

  lemma NoDecisions(net: Net, cfg: Config)
    ensures Compiled(net, cfg, []).cfg == cfg
  {
  }

  /** A plain user has no rules in front. */
  lemma NoFront(net: Net, outs: Outbounds, sem: Sem, ds: seq<Decision>, acc: Acc, c: Conn)
    requires AccFacts(net, outs, Ordered(ds), |Ordered(ds)|, acc) && PlainUser(ds, c.user)
    ensures FirstMatch(sem, acc.front, c).None?
  {
    hide FirstMatch, Ordered, AnswersDns, StandsFor, IsCatX, BackOf;
    OrderedElements(ds);
    forall i | 0 <= i < |acc.front| ensures acc.front[i].Generated? && acc.front[i].user != c.user {
      var j :| 0 <= j < |Ordered(ds)| && FrontRuleOf(net, outs, Ordered(ds)[j], acc.front[i]);
      assert Ordered(ds)[j] in Ordered(ds);
    }
    NoMatch(sem, acc.front, c);
  }

  lemma ApartOrdered(ds: seq<Decision>, user: string)
    requires TagsApart(ds) && PlainUser(ds, user)
    ensures TagsApart(Ordered(ds)) && PlainUser(Ordered(ds), user)
  {
    hide Ordered, StableClient;
    OrderedElements(ds);
  }

  lemma LowestFirst(sem: Sem, ds: seq<Decision>, c: Conn, j: nat)
    requires FirstOf(sem, Ordered(ds), |Ordered(ds)|, c, j)
    ensures Ordered(ds)[j] in ds && forall e :: e in ds && ReachedBy(sem, e, c) ==> Ordered(ds)[j].policyID <= e.policyID
  {
    hide Reaches;
    var o := Ordered(ds);
    OrderedElements(ds);
    DecisionOrder();
    SortSorted(ds, DecisionLess);
    assert o[j] in o;
    forall e | e in ds && ReachedBy(sem, e, c) ensures o[j].policyID <= e.policyID {
      assert e in o;
      var i :| 0 <= i < |o| && o[i] == e;
      assert i != j ==> !DecisionLess(o[i], o[j]);
    }
  }
}
