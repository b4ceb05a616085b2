/** Compile against its preview, against itself and against the order of its input. */
module PolicyAgreement {
  import opened Text
  import opened Sorting
  import opened StringSets
  import opened PolicyModel
  import opened PolicyCompiler
  import opened PolicyRouting

  // ----- the preview shows what is compiled

  /** What a line of the preview or a rule says: its tag, its user, what it selects and, where
      asked for, the outbound. */
  datatype Said = Said(tag: string, user: string, what: string, outbound: string)

  ghost function SaidByRule(r: Rule, o: bool): Said
    requires r.Generated?
  {
    var what := match r.sel
      case DnsPort => "dns:53/udp,tcp"
      case Everything => ""
      case IP(cidr) => "ip:" + cidr
      case Domain(d) => d;
    Said(r.tag, r.user, what, if o then r.outbound else "")
  }

  /** Allowlist entries are shown as written; the rule has what that stands for. */
  ghost function SaidByLine(net: Net, p: RulePreview, o: bool): Said {
    var what := if HasPrefix(p.ruleTag, "catx-quarantine-") && Normalize(net, 0, p.destination).Good?
      then Normalize(net, 0, p.destination).destination else p.destination;
    Said(p.ruleTag, p.user, what, if o then p.outboundTag else "")
  }

  /** What every generated rule says, counted. */
  ghost function RuleKeys(rules: seq<Rule>, o: bool): multiset<Said> {
    if rules == [] then multiset{} else
      var r := rules[|rules| - 1];
      RuleKeys(rules[..|rules| - 1], o) + if r.Generated? then multiset{SaidByRule(r, o)} else multiset{}
  }

  /** What every line says that the preview marks as emitted, counted. */
  ghost function ShownKeys(net: Net, previews: seq<RulePreview>, o: bool): multiset<Said> {
    if previews == [] then multiset{} else
      var p := previews[|previews| - 1];
      ShownKeys(net, previews[..|previews| - 1], o) + if p.emitted then multiset{SaidByLine(net, p, o)} else multiset{}
  }

  lemma NoKeys(o: bool)
    ensures RuleKeys([], o) == multiset{}
  {
  }

  lemma RuleKeysPush(rules: seq<Rule>, r: Rule, o: bool)
    ensures RuleKeys(rules + [r], o) == RuleKeys(rules, o) + if r.Generated? then multiset{SaidByRule(r, o)} else multiset{}
  {
    assert (rules + [r])[..|rules|] == rules;
  }

  lemma {:induction false} RuleKeysConcat(a: seq<Rule>, b: seq<Rule>, o: bool)
    ensures RuleKeys(a + b, o) == RuleKeys(a, o) + RuleKeys(b, o)
    decreases |b|
  {
    hide SaidByRule;
    if b == [] {
      assert a + b == a;
    } else {
      var front, last := b[..|b| - 1], b[|b| - 1];
      RuleKeysConcat(a, front, o);
      assert a + b == (a + front) + [last];
      RuleKeysPush(a + front, last, o);
      RuleKeysPush(front, last, o);
      assert b == front + [last];
    }
  }

  lemma ShownKeysPush(net: Net, ps: seq<RulePreview>, p: RulePreview, o: bool)
    ensures ShownKeys(net, ps + [p], o) == ShownKeys(net, ps, o) + if p.emitted then multiset{SaidByLine(net, p, o)} else multiset{}
  {
    assert (ps + [p])[..|ps|] == ps;
  }

  /** Preview has shown exactly what Compile has emitted, and both remember the same tags. */
  ghost predicate Agree(net: Net, acc: Acc, s: Shown, o: bool) {
    && ShownKeys(net, s.previews, o) == RuleKeys(acc.front, o) + RuleKeys(acc.back, o)
    && s.seen == acc.seen
  }

  /** The outbounds Preview names are the ones there are: a dns outbound is asked for by its tag, and
      the one for the action has its usual tag. */
  ghost predicate Named(outs: Outbounds, d: Decision) {
    && (d.managedDNS ==> d.dnsOutboundTag != "")
    && (!d.quarantined && outs.Outbounds? ==>
          exists i :: 0 <= i < |outs.items| && outs.items[i].tag == if d.action == "allow" then "direct" else "blocked")
  }

  lemma NormalizeAnyId(net: Net, a: nat, b: nat, raw: string)
    ensures forall s :: Normalize(net, a, raw) == Good(s) <==> Normalize(net, b, raw) == Good(s)
  {
    hide Normalize, StandsFor;
    NormalizeSpec(net, a, raw);
    NormalizeSpec(net, b, raw);
  }

  lemma AllowSaid(net: Net, d: Decision, i: nat, p: RulePreview, r: Rule, o: bool)
    requires i < |d.quarantineAllowlist| && Normalize(net, d.policyID, d.quarantineAllowlist[i]).Good?
    requires p.ruleTag == AllowTag(d, i) && p.destination == d.quarantineAllowlist[i] && p.user == d.clientEmail && p.outboundTag == "direct"
    requires r == Generated(AllowTag(d, i), d.clientEmail, Domain(Normalize(net, d.policyID, d.quarantineAllowlist[i]).destination), "direct")
    ensures SaidByLine(net, p, o) == SaidByRule(r, o)
  {
    hide Normalize, NatToString, StableClient;
    NormalizeAnyId(net, d.policyID, 0, d.quarantineAllowlist[i]);
    assert AllowTag(d, i)[..|QUARANTINE_TAG_PREFIX|] == QUARANTINE_TAG_PREFIX;
  }

  lemma {:induction false} AllowAgrees(net: Net, d: Decision, n: nat, s: Shown, o: bool)
    requires n <= |d.quarantineAllowlist| && AllowRules(net, d, n).Ok?
    ensures ShownKeys(net, ShowAllow(d, n, s).previews, o) == ShownKeys(net, s.previews, o) + RuleKeys(AllowRules(net, d, n).value, o)
    ensures ShowAllow(d, n, s).seen == s.seen
    decreases n
  {
    hide Normalize, AllowTag, ShownKeys, RuleKeys, SaidByRule, SaidByLine;
    if n == 0 {
      NoKeys(o);
    } else {
      AllowAgrees(net, d, n - 1, s, o);
      var rules := AllowRules(net, d, n - 1).value;
      var x := Normalize(net, d.policyID, d.quarantineAllowlist[n - 1]).destination;
      var r := Generated(AllowTag(d, n - 1), d.clientEmail, Domain(x), "direct");
      RuleKeysPush(rules, r, o);
      var t := ShowAllow(d, n - 1, s);
      var p := RulePreview(AllowTag(d, n - 1), d.quarantineAllowlist[n - 1], d.clientEmail, "direct",
                           |t.previews|, d.policyID, d.winner.source, true);
      ShownKeysPush(net, t.previews, p, o);
      AllowSaid(net, d, n - 1, p, r, o);
    }
  }

  lemma BackSaid(net: Net, d: Decision, i: nat, dest: string, outbound: string, p: RulePreview, o: bool)
    requires p.ruleTag == PolicyTag(d, i) && p.destination == dest && p.user == d.clientEmail && (o ==> p.outboundTag == outbound)
    ensures SaidByLine(net, p, o) == SaidByRule(Generated(PolicyTag(d, i), d.clientEmail, Select(dest), outbound), o)
  {
    hide NatToString, StableClient, Normalize;
    assert PolicyTag(d, i)[5] == 'p' && "catx-quarantine-"[5] == 'q';
    assert "ip:" <= dest ==> dest == "ip:" + dest[3..];
  }

  lemma {:induction false} BackAgrees(net: Net, d: Decision, outbound: string, dests: seq<string>, n: nat, acc: Acc, s: Shown, o: bool)
    requires n <= |dests| && Agree(net, acc, s, o) && (o ==> outbound == Wanted(d.action))
    ensures Agree(net, AddBack(d, outbound, dests, n, acc), ShowBack(d, dests, n, s), o)
    decreases n
  {
    hide PolicyTag, Select, ShownKeys, RuleKeys, Wanted, SaidByRule, SaidByLine;
    if n > 0 {
      BackAgrees(net, d, outbound, dests, n - 1, acc, s, o);
      var a, t := AddBack(d, outbound, dests, n - 1, acc), ShowBack(d, dests, n - 1, s);
      var tag := PolicyTag(d, n - 1);
      RuleKeysPush(a.back, Generated(tag, d.clientEmail, Select(dests[n - 1]), outbound), o);
      var p := RulePreview(tag, dests[n - 1], d.clientEmail, Wanted(d.action), |t.previews|, d.policyID, d.winner.source, true);
      ShownKeysPush(net, t.previews, p, o);
      BackSaid(net, d, n - 1, dests[n - 1], outbound, p, o);
    }
  }

  lemma DnsAgrees(net: Net, outs: Outbounds, d: Decision, s: Shown, o: bool)
    requires DnsRules(outs, d).Ok? && (o ==> Named(outs, d))
    ensures ShownKeys(net, ShowDns(d, s).previews, o) == ShownKeys(net, s.previews, o) + RuleKeys(DnsRules(outs, d).value, o)
    ensures ShowDns(d, s).seen == s.seen
  {
    hide ShownKeys, StableClient, Normalize;
    if d.managedDNS {
      ShownKeysPush(net, s.previews, RulePreview(DnsTag(d), "dns:53/udp,tcp", d.clientEmail, d.dnsOutboundTag,
                                                 |s.previews|, d.policyID, d.winner.source, true), o);
      assert DnsRules(outs, d).value[..0] == [];
      assert DnsTag(d)[5] == 'd' && "catx-quarantine-"[5] == 'q';
    }
  }

  lemma BlockSaid(net: Net, d: Decision, p: RulePreview, o: bool)
    requires p.ruleTag == QuarantineTag(d) && p.destination == "" && p.user == d.clientEmail && p.outboundTag == "blocked"
    ensures SaidByLine(net, p, o) == SaidByRule(CatchAll(d), o)
  {
    hide StableClient;
    assert ToLower(TrimSpace("")) == "";
  }

  lemma FrontAgrees(net: Net, outs: Outbounds, d: Decision, s: Shown, o: bool)
    requires FrontRules(net, outs, d).Ok? && d.quarantined && (o ==> Named(outs, d))
    ensures var t := ShowOne(net, d, s);
      ShownKeys(net, t.previews, o) == ShownKeys(net, s.previews, o) + RuleKeys(FrontRules(net, outs, d).value, o) && t.seen == s.seen
  {
    hide DnsTag, QuarantineTag, ShownKeys, RuleKeys, DnsRules, AllowRules, ShowDns, ShowAllow, SaidByLine, SaidByRule, Named;
    var dns, allow := DnsRules(outs, d).value, AllowRules(net, d, |d.quarantineAllowlist|).value;
    DnsAgrees(net, outs, d, s, o);
    var t := ShowDns(d, s);
    AllowAgrees(net, d, |d.quarantineAllowlist|, t, o);
    var u := ShowAllow(d, |d.quarantineAllowlist|, t);
    var p := RulePreview(QuarantineTag(d), "", d.clientEmail, "blocked", |u.previews|, d.policyID, d.winner.source, true);
    ShownKeysPush(net, u.previews, p, o);
    BlockSaid(net, d, p, o);
    RuleKeysConcat(dns, allow, o);
    RuleKeysPush(dns + allow, CatchAll(d), o);
  }

  lemma OneAgrees(net: Net, outs: Outbounds, d: Decision, acc: Acc, s: Shown, o: bool)
    requires Agree(net, acc, s, o) && EmitOne(net, outs, d, acc).Ok? && (o ==> Named(outs, d))
    ensures Agree(net, EmitOne(net, outs, d, acc).value, ShowOne(net, d, s), o)
  {
    hide ShownKeys, RuleKeys, DnsRules, ShowDns, AddBack, ShowBack, SelectOutbound, Supported, Wanted, Named, SaidByLine;
    var front := FrontRules(net, outs, d).value;
    RuleKeysConcat(acc.front, front, o);
    if d.quarantined {
      FrontAgrees(net, outs, d, s, o);
    } else {
      DnsAgrees(net, outs, d, s, o);
      NamedOutbound(outs, d);
      var dests := Supported(net, d.policyID, d.destinations).value;
      var mid, t := acc.(front := acc.front + front), ShowDns(d, s);
      BackAgrees(net, d, SelectOutbound(outs, d.action).value, dests, |dests|, mid, t, o);
      if dests == [] {
        NoBack(d, SelectOutbound(outs, d.action).value, dests, mid);
        ShownKeysPush(net, t.previews, RulePreview("", "", d.clientEmail, Wanted(d.action), 0, d.policyID, d.winner.source, false), o);
      }
    }
  }

  lemma NamedOutbound(outs: Outbounds, d: Decision)
    ensures Named(outs, d) && !d.quarantined && SelectOutbound(outs, d.action).Ok? ==> SelectOutbound(outs, d.action) == Ok(Wanted(d.action))
  {
  }

  lemma NoBack(d: Decision, outbound: string, dests: seq<string>, acc: Acc)
    requires dests == []
    ensures AddBack(d, outbound, dests, |dests|, acc) == acc
  {
  }

  lemma {:induction false} AllAgree(net: Net, outs: Outbounds, ds: seq<Decision>, n: nat, o: bool)
    requires n <= |ds| && EmitAll(net, outs, ds, n).Ok? && (o ==> forall d :: d in ds ==> Named(outs, d))
    ensures Agree(net, EmitAll(net, outs, ds, n).value, ShowAll(net, ds, n), o)
    decreases n
  {
    hide EmitOne, ShowOne, Named;
    if n > 0 {
      AllAgree(net, outs, ds, n - 1, o);
      OneAgrees(net, outs, ds[n - 1], EmitAll(net, outs, ds, n - 1).value, ShowAll(net, ds, n - 1), o);
    }
  }

  lemma PreviewSays(net: Net, cfg: Config, ds: seq<Decision>, o: bool)
    requires Clean(cfg) && ds != [] && Compiled(net, cfg, ds).err.None? && (o ==> forall d :: d in ds ==> Named(cfg.outbounds, d))
    ensures ShownKeys(net, ShowAll(net, Ordered(ds), |Ordered(ds)|).previews, o) + RuleKeys(RulesOf(cfg), o)
         == RuleKeys(RulesOf(Compiled(net, cfg, ds).cfg), o)
  {
    hide EmitAll, Ordered, RuleKeys, ShownKeys, ShowAll, Named;
    var acc := CompiledShape(net, cfg, ds);
    OrderedElements(ds);
    AllAgree(net, cfg.outbounds, Ordered(ds), |Ordered(ds)|, o);
    RuleKeysConcat(acc.front, RulesOf(cfg), o);
    RuleKeysConcat(acc.front + RulesOf(cfg), acc.back, o);
  }

  /** Whenever Compile succeeds, the lines Preview marks as emitted say, with multiplicity, the
      tags, users and destinations of the rules Compile generates. */
  lemma PreviewAgrees(net: Net, cfg: Config, ds: seq<Decision>)
    requires Clean(cfg) && ds != [] && Compiled(net, cfg, ds).err.None?
    ensures ShownKeys(net, ShowAll(net, Ordered(ds), |Ordered(ds)|).previews, false) + RuleKeys(RulesOf(cfg), false)
         == RuleKeys(RulesOf(Compiled(net, cfg, ds).cfg), false)
  {
    PreviewSays(net, cfg, ds, false);
  }

  /** The outbounds agree too where they have the names Preview takes for granted. */
  lemma PreviewOutbounds(net: Net, cfg: Config, ds: seq<Decision>)
    requires Clean(cfg) && ds != [] && Compiled(net, cfg, ds).err.None?
    requires forall d :: d in ds ==> Named(cfg.outbounds, d)
    ensures ShownKeys(net, ShowAll(net, Ordered(ds), |Ordered(ds)|).previews, true) + RuleKeys(RulesOf(cfg), true)
         == RuleKeys(RulesOf(Compiled(net, cfg, ds).cfg), true)
  {
    PreviewSays(net, cfg, ds, true);
  }

  // ----- the other fields of the preview

  /** Line `i` is about the decision; emitted lines carry a tag and their own position. */
  ghost predicate LineOf(p: RulePreview, i: nat, d: Decision) {
    && p.user == d.clientEmail && p.policyID == d.policyID && p.source == d.winner.source
    && (if p.emitted then p.ruleTag != "" && p.order == i else p.ruleTag == "" && p.destination == "" && p.order == 0)
  }

  /** From line `k` on everything is about the decision, and what was there before still is. */
  ghost predicate Extends(before: Shown, after: Shown, d: Decision) {
    && before.previews <= after.previews
    && forall i :: |before.previews| <= i < |after.previews| ==> LineOf(after.previews[i], i, d)
  }

  lemma ExtendsTwice(a: Shown, b: Shown, c: Shown, d: Decision)
    requires Extends(a, b, d) && Extends(b, c, d)
    ensures Extends(a, c, d)
  {
    hide LineOf;
    forall i | |a.previews| <= i < |c.previews| ensures LineOf(c.previews[i], i, d) {
      if i < |b.previews| { assert c.previews[i] == b.previews[i]; }
    }
  }

  lemma {:induction false} AllowLines(d: Decision, n: nat, s: Shown)
    requires n <= |d.quarantineAllowlist|
    ensures Extends(s, ShowAllow(d, n, s), d)
    decreases n
  {
    hide StableClient, NatToString;
    if n > 0 {
      AllowLines(d, n - 1, s);
      ExtendsTwice(s, ShowAllow(d, n - 1, s), ShowAllow(d, n, s), d);
    }
  }

  lemma {:induction false} BackLines(d: Decision, dests: seq<string>, n: nat, s: Shown)
    requires n <= |dests|
    ensures Extends(s, ShowBack(d, dests, n, s), d)
    decreases n
  {
    hide StableClient, NatToString;
    if n > 0 {
      BackLines(d, dests, n - 1, s);
      ExtendsTwice(s, ShowBack(d, dests, n - 1, s), ShowBack(d, dests, n, s), d);
    }
  }

  lemma OneLines(net: Net, d: Decision, s: Shown)
    ensures Extends(s, ShowOne(net, d, s), d)
  {
    hide StableClient, NatToString, ShowAllow, ShowBack, Supported;
    var t := ShowDns(d, s);
    assert Extends(s, t, d);
    if d.quarantined {
      AllowLines(d, |d.quarantineAllowlist|, t);
      var u := ShowAllow(d, |d.quarantineAllowlist|, t);
      ExtendsTwice(s, t, u, d);
      ExtendsTwice(s, u, ShowOne(net, d, s), d);
    } else {
      var got := Supported(net, d.policyID, d.destinations);
      if got.Ok? { BackLines(d, got.value, |got.value|, t); }
      ExtendsTwice(s, t, ShowOne(net, d, s), d);
    }
  }

  /** The line is about one of the first `n` decisions. */
  ghost predicate LineOfSome(p: RulePreview, i: nat, ds: seq<Decision>, n: nat)
    requires n <= |ds|
  {
    exists j :: 0 <= j < n && LineOf(p, i, ds[j])
  }

  /** Every line of the preview is about one of the decisions, with its policy, its client and the
      source of its winner; emitted lines are numbered by their position. */
  lemma {:induction false} PreviewLines(net: Net, ds: seq<Decision>, n: nat, i: nat)
    requires n <= |ds| && i < |ShowAll(net, ds, n).previews|
    ensures LineOfSome(ShowAll(net, ds, n).previews[i], i, ds, n)
    decreases n
  {
    hide ShowOne, LineOf;
    var before := ShowAll(net, ds, n - 1);
    OneLines(net, ds[n - 1], before);
    if i < |before.previews| {
      PreviewLines(net, ds, n - 1, i);
      assert ShowAll(net, ds, n).previews[i] == before.previews[i];
    } else {
      assert LineOf(ShowAll(net, ds, n).previews[i], i, ds[n - 1]);
    }
  }

  /** The line says that nothing is emitted for the decision. */
  ghost predicate SaysNothing(lines: seq<RulePreview>, d: Decision) {
    exists i :: 0 <= i < |lines| && LineOf(lines[i], i, d) && !lines[i].emitted
  }

  /** Nothing can be emitted: a destination is not understood, there is none, or the action is none. */
  ghost predicate Idle(net: Net, d: Decision) {
    && !d.quarantined
    && (d.action !in ["allow", "deny"] || Supported(net, d.policyID, d.destinations).Err?
        || Supported(net, d.policyID, d.destinations).value == [])
  }

  lemma IdleLine(net: Net, d: Decision, s: Shown)
    requires Idle(net, d)
    ensures SaysNothing(ShowOne(net, d, s).previews, d)
  {
    hide StableClient, NatToString, Supported, ShowDns;
    var t := ShowDns(d, s);
    var lines := ShowOne(net, d, s).previews;
    assert LineOf(lines[|t.previews|], |t.previews|, d) && !lines[|t.previews|].emitted;
  }

  /** Every decision for which nothing can be emitted has a line that says so. */
  lemma {:induction false} NothingIsShown(net: Net, ds: seq<Decision>, n: nat, j: nat)
    requires j < n <= |ds| && Idle(net, ds[j])
    ensures SaysNothing(ShowAll(net, ds, n).previews, ds[j])
    decreases n
  {
    hide ShowOne, LineOf, Idle;
    var before, after := ShowAll(net, ds, n - 1), ShowAll(net, ds, n);
    OneLines(net, ds[n - 1], before);
    if j < n - 1 {
      NothingIsShown(net, ds, n - 1, j);
      var i :| 0 <= i < |before.previews| && LineOf(before.previews[i], i, ds[j]) && !before.previews[i].emitted;
      assert after.previews[i] == before.previews[i];
    } else {
      IdleLine(net, ds[j], before);
    }
  }

  // ----- order

  lemma DecisionOrder()
    ensures WeakOrder(DecisionLess)
  {
    hide Less;
    StringOrder();
    assert Irreflexive(DecisionLess);
    forall x, y, z | DecisionLess(x, y) && DecisionLess(y, z) ensures DecisionLess(x, z) {
      EmailTransitive(x.clientEmail, y.clientEmail, z.clientEmail);
    }
    forall x, y, z | !DecisionLess(x, y) && !DecisionLess(y, z) ensures !DecisionLess(x, z) {
      EmailNegTransitive(x.clientEmail, y.clientEmail, z.clientEmail);
    }
  }

  lemma EmailTransitive(a: string, b: string, c: string)
    ensures Less(a, b) && Less(b, c) ==> Less(a, c) && a != c
  {
    if Less(a, b) && Less(b, c) {
      LessTransitive(a, b, c);
      LessIrreflexive(a);
    }
  }

  lemma EmailNegTransitive(a: string, b: string, c: string)
    ensures a != b ==> Less(a, b) != Less(b, a)
    ensures b != c ==> Less(b, c) != Less(c, b)
    ensures a != c ==> Less(a, c) != Less(c, a)
    ensures Less(c, b) && Less(b, a) ==> Less(c, a) && a != c
  {
    EmailTransitive(a, b, a);
    EmailTransitive(b, c, b);
    EmailTransitive(a, c, a);
    EmailTransitive(c, b, a);
    if a != b { LessTotal(a, b); }
    if b != c { LessTotal(b, c); }
    if a != c { LessTotal(a, c); }
  }

  ghost predicate DistinctKeys(ds: seq<Decision>) {
    forall i, j :: 0 <= i < j < |ds| ==> (ds[i].clientEmail, ds[i].policyID) != (ds[j].clientEmail, ds[j].policyID)
  }

  /** With at most one decision per client and policy, neither Compile nor Preview depends on
      the order of the decisions. */
  lemma OrderIndependent(net: Net, cfg: Config, a: seq<Decision>, b: seq<Decision>)
    requires DistinctKeys(a) && multiset(a) == multiset(b)
    ensures Compiled(net, cfg, a) == Compiled(net, cfg, b)
    ensures ShowAll(net, Ordered(a), |Ordered(a)|) == ShowAll(net, Ordered(b), |Ordered(b)|)
  {
    hide EmitAll, ShowAll, Less;
    DecisionOrder();
    assert TotalOn(a, DecisionLess) by {
      forall x, y | x in a && y in a && x != y ensures DecisionLess(x, y) || DecisionLess(y, x) {
        var i :| 0 <= i < |a| && a[i] == x;
        var j :| 0 <= j < |a| && a[j] == y;
        assert (a[i].clientEmail, a[i].policyID) != (a[j].clientEmail, a[j].policyID);
        EmailNegTransitive(x.clientEmail, y.clientEmail, x.clientEmail);
      }
    }
    SortCanonical(a, b, DecisionLess);
    assert |a| == |multiset(a)| == |multiset(b)| == |b|;
  }

  // ----- compiling again

  lemma {:induction false} KeptObjects(rules: seq<Rule>, n: nat)
    requires n <= |rules|
    ensures Kept(Objects(rules), n) == Stripped(rules[..n])
    decreases n
  {
    hide IsCatX;
    if n > 0 {
      KeptObjects(rules, n - 1);
      assert rules[..n][..n - 1] == rules[..n - 1];
    }
  }

  /** A rule list without the generated rules. */
  ghost function Stripped(rules: seq<Rule>): seq<Rule> {
    if rules == [] then []
    else if IsCatX(rules[|rules| - 1].tag) then Stripped(rules[..|rules| - 1])
    else Stripped(rules[..|rules| - 1]) + [rules[|rules| - 1]]
  }

  lemma {:induction false} StrippedConcat(a: seq<Rule>, b: seq<Rule>)
    ensures Stripped(a + b) == Stripped(a) + Stripped(b)
    decreases |b|
  {
    hide IsCatX;
    if b == [] {
      assert a + b == a;
    } else {
      assert (a + b)[..|a + b| - 1] == a + b[..|b| - 1];
      StrippedConcat(a, b[..|b| - 1]);
    }
  }

  lemma {:induction false} StrippedCatX(a: seq<Rule>)
    requires AllCatX(a)
    ensures Stripped(a) == []
    decreases |a|
  {
    hide IsCatX;
    if a != [] { StrippedCatX(a[..|a| - 1]); }
  }

  lemma {:induction false} StrippedIdempotent(a: seq<Rule>)
    ensures Stripped(Stripped(a)) == Stripped(a)
    ensures |Stripped(a)| <= |a|
    decreases |a|
  {
    hide IsCatX;
    if a != [] {
      StrippedIdempotent(a[..|a| - 1]);
      var s := Stripped(a[..|a| - 1]);
      assert (s + [a[|a| - 1]])[..|s|] == s;
    }
  }

  lemma {:induction false} KeptItems(items: seq<Item>, n: nat)
    requires AllObjects(items) && n <= |items|
    ensures Kept(items, n) == Stripped(seq(n, i requires 0 <= i < n => items[i].rule))
    decreases n
  {
    hide IsCatX;
    if n > 0 {
      KeptItems(items, n - 1);
      var s := seq(n, i requires 0 <= i < n => items[i].rule);
      assert s[..n - 1] == seq(n - 1, i requires 0 <= i < n - 1 => items[i].rule);
    }
  }

  /** The list a compilation is meant to produce: new front rules, what the operator wrote, new
      policy rules, and nothing from an earlier compilation. */
  ghost function Target(rules: seq<Rule>, acc: Acc): seq<Rule> {
    acc.front + Stripped(rules) + acc.back
  }

  /** Compile's result on any config, with whatever an earlier compilation left in it. */
  lemma CompiledAny(net: Net, cfg: Config, ds: seq<Decision>) returns (acc: Acc)
    requires ds != [] && Compiled(net, cfg, ds).err.None?
    ensures EmitAll(net, cfg.outbounds, Ordered(ds), |Ordered(ds)|) == Ok(acc)
    ensures AllCatX(acc.front) && AllCatX(acc.back)
    ensures |Target(RulesOf(cfg), acc)| == |RulesOf(cfg)| ==> Compiled(net, cfg, ds).cfg == cfg
    ensures |Target(RulesOf(cfg), acc)| != |RulesOf(cfg)| ==>
      && RulesOf(Compiled(net, cfg, ds).cfg) == Target(RulesOf(cfg), acc)
      && Compiled(net, cfg, ds).cfg == cfg.(routing := cfg.routing.(rules := List(Objects(Target(RulesOf(cfg), acc)))))
  {
    hide EmitAll, Ordered, IsCatX;
    acc := EmitAll(net, cfg.outbounds, Ordered(ds), |Ordered(ds)|).value;
    EmitFacts(net, cfg.outbounds, Ordered(ds), |Ordered(ds)|);
    var items := ItemsOf(cfg.routing.rules);
    KeptItems(items, |items|);
    assert RulesOf(cfg) == seq(|items|, i requires 0 <= i < |items| => items[i].rule);
  }

  /** Compile replaces the rules of an earlier compilation exactly when the number of rules to
      drop differs from the number to add, or nothing was to change anyway: otherwise its
      length test takes the stale list for the new one. */
  lemma ReplacesIff(net: Net, cfg: Config, ds: seq<Decision>) returns (acc: Acc)
    requires ds != [] && Compiled(net, cfg, ds).err.None?
    ensures EmitAll(net, cfg.outbounds, Ordered(ds), |Ordered(ds)|) == Ok(acc)
    ensures RulesOf(Compiled(net, cfg, ds).cfg) == Target(RulesOf(cfg), acc) <==>
      || |RulesOf(cfg)| - |Stripped(RulesOf(cfg))| != |acc.front| + |acc.back|
      || RulesOf(cfg) == Target(RulesOf(cfg), acc)
  {
    hide EmitAll, Ordered, IsCatX, Compiled, RulesOf;
    acc := CompiledAny(net, cfg, ds);
  }

  /** A decision with one destination, nothing in front and nothing that can fail. */
  ghost predicate Plain(net: Net, outs: Outbounds, d: Decision, destination: string) {
    && d.action in ["allow", "deny"] && !d.quarantined && !d.managedDNS
    && SelectOutbound(outs, d.action).Ok? && Supported(net, d.policyID, d.destinations) == Ok([destination])
  }

  lemma PlainRule(net: Net, outs: Outbounds, d: Decision, x: string, acc: Acc)
    requires Plain(net, outs, d, x)
    ensures var t := PolicyTag(d, 0);
      EmitOne(net, outs, d, acc) == Ok(if t in acc.seen then acc else
        acc.(back := acc.back + [Generated(t, d.clientEmail, Select(x), SelectOutbound(outs, d.action).value)], seen := acc.seen + {t}))
  {
    hide PolicyTag, Select, SelectOutbound, Supported;
    assert acc.front + [] == acc.front;
    assert FrontRules(net, outs, d) == Ok([]);
    assert AddBack(d, SelectOutbound(outs, d.action).value, [x], 0, acc) == acc;
  }

  lemma OneDecision(net: Net, outs: Outbounds, d: Decision, x: string)
    requires Plain(net, outs, d, x)
    ensures Ordered([d]) == [d] && EmitAll(net, outs, [d], 1).Ok?
    ensures var acc := EmitAll(net, outs, [d], 1).value;
      acc.front == [] && acc.back == [Generated(PolicyTag(d, 0), d.clientEmail, Select(x), SelectOutbound(outs, d.action).value)]
      && acc.seen == {PolicyTag(d, 0)}
  {
    hide PolicyTag, Select, SelectOutbound, Plain, EmitOne;
    assert [d][1..] == [];
    assert Sort([d], DecisionLess) == Insert(d, [], DecisionLess) == [d];
    PlainRule(net, outs, d, x, EMPTY);
    assert EmitAll(net, outs, [d], 0) == Ok(EMPTY);
  }

  /** One rule left by an earlier compilation and one different rule to add: the stale one stays. */
  lemma StaleRuleStays(net: Net, cfg: Config, d: Decision, x: string, stale: Rule)
    requires cfg.routing.Routing? && cfg.routing.rules == List([Obj(stale)]) && IsCatX(stale.tag)
    requires Plain(net, cfg.outbounds, d, x)
    requires stale.Generated? ==> stale.user != d.clientEmail
    ensures Compiled(net, cfg, [d]) == Outcome(cfg, None)
    ensures exists acc :: EmitAll(net, cfg.outbounds, [d], 1) == Ok(acc) && RulesOf(cfg) == [stale] != Target([stale], acc) == acc.back
  {
    hide PolicyTag, Select, SelectOutbound, Plain, EmitAll, IsCatX;
    OneDecision(net, cfg.outbounds, d, x);
    var acc := EmitAll(net, cfg.outbounds, [d], 1).value;
    assert Kept([Obj(stale)], 0) == [] && Kept([Obj(stale)], 1) == [];
    assert [stale][..0] == [];
    assert Stripped([stale]) == [];
    assert acc.front + [] + acc.back == acc.back;
  }

  /** Compiling the result again with the same decisions changes nothing. */
  lemma CompileIdempotent(net: Net, cfg: Config, ds: seq<Decision>)
    requires Compiled(net, cfg, ds).err.None?
    ensures var once := Compiled(net, cfg, ds); Compiled(net, once.cfg, ds) == once
  {
    hide EmitAll, Ordered, IsCatX;
    if ds != [] {
      var acc := CompiledAny(net, cfg, ds);
      var rules := Target(RulesOf(cfg), acc);
      if |rules| != |RulesOf(cfg)| {
        StrippedTarget(RulesOf(cfg), acc);
        KeptObjects(rules, |rules|);
        assert rules[..|rules|] == rules;
      }
    }
  }

  lemma StrippedTarget(rules: seq<Rule>, acc: Acc)
    requires AllCatX(acc.front) && AllCatX(acc.back)
    ensures Stripped(Target(rules, acc)) == Stripped(rules)
  {
    hide IsCatX;
    StrippedConcat(acc.front + Stripped(rules), acc.back);
    StrippedConcat(acc.front, Stripped(rules));
    StrippedCatX(acc.front);
    StrippedCatX(acc.back);
    StrippedIdempotent(rules);
  }

  // ----- does every decision get its rules

  lemma NoDash(n: nat)
    ensures forall k :: 0 <= k < |NatToString(n)| ==> NatToString(n)[k] != '-'
  {
    var s := NatToString(n);
    assert AllDigits(s);
  }

  lemma DashSplitLeft(a: string, x: string, b: string, y: string)
    requires a + "-" + x == b + "-" + y
    requires (forall k :: 0 <= k < |a| ==> a[k] != '-') && (forall k :: 0 <= k < |b| ==> b[k] != '-')
    ensures a == b && x == y
  {
    IndexFirst(a, '-', x);
    IndexFirst(b, '-', y);
    var s := a + "-" + x;
    assert a == s[..|a|] && b == s[..|b|];
    assert x == s[|a| + 1..] && y == s[|b| + 1..];
  }

  lemma DashSplitRight(a: string, x: string, b: string, y: string)
    requires a + "-" + x == b + "-" + y
    requires (forall k :: 0 <= k < |x| ==> x[k] != '-') && (forall k :: 0 <= k < |y| ==> y[k] != '-')
    ensures a == b && x == y
  {
    var s := a + "-" + x;
    assert s[|a|] == '-' && s[|b|] == '-';
    assert forall k :: |a| < k < |s| ==> s[k] == x[k - |a| - 1];
    assert forall k :: |b| < k < |s| ==> s[k] == y[k - |b| - 1];
    assert |a| == |b|;
    assert a == s[..|a|] && b == s[..|b|];
    assert x == s[|a| + 1..] && y == s[|b| + 1..];
  }

  /** The tags, character by character, of policy 7 and the client a@b.c. */
  lemma TagTexts(d: Decision)
    requires d.policyID == 7 && d.clientEmail == "a@b.c"
    ensures PolicyTag(d, 0) == "catx-policy-7-a-b-c-0" && QuarantineTag(d) == "catx-quarantine-a-b-c"
    ensures AllowTag(d, 2) == "catx-quarantine-a-b-c-2" && DnsTag(d) == "catx-dns-a-b-c"
  {
    assert StableClient(d.clientEmail) == "a-b-c";
    assert NatToString(7) == "7" && NatToString(0) == "0" && NatToString(2) == "2";
  }

  /** Rules of an earlier compilation are told by the beginning of their tag. */
  lemma CatXIff(tag: string)
    ensures IsCatX(tag) <==> "catx-policy-" <= tag || "catx-quarantine-" <= tag || "catx-dns-" <= tag
  {
  }

  /** A policy rule tag determines the policy, the stable client name and the index. */
  lemma TagInjective(a: Decision, i: nat, b: Decision, j: nat)
    requires PolicyTag(a, i) == PolicyTag(b, j)
    ensures a.policyID == b.policyID && StableClient(a.clientEmail) == StableClient(b.clientEmail) && i == j
  {
    hide NatToString, StableClient;
    var p := RULE_TAG_PREFIX;
    var n, m := NatToString(a.policyID), NatToString(b.policyID);
    var u, v := StableClient(a.clientEmail) + "-" + NatToString(i), StableClient(b.clientEmail) + "-" + NatToString(j);
    assert PolicyTag(a, i)[|p|..] == n + "-" + u;
    assert PolicyTag(b, j)[|p|..] == m + "-" + v;
    NoDash(a.policyID);
    NoDash(b.policyID);
    DashSplitLeft(n, u, m, v);
    NoDash(i);
    NoDash(j);
    DashSplitRight(StableClient(a.clientEmail), NatToString(i), StableClient(b.clientEmail), NatToString(j));
    NumberOf(a.policyID, n);
    NumberOf(b.policyID, m);
    NumberOf(i, NatToString(i));
    NumberOf(j, NatToString(j));
  }

  lemma NumberOf(n: nat, s: string)
    requires s == NatToString(n)
    ensures AllDigits(s) && NatValue(s) == n
  {
  }

  /** The number of policy rules a decision asks for. */
  ghost function Wants(net: Net, d: Decision): nat {
    if d.quarantined then 0 else
      match Supported(net, d.policyID, d.destinations)
      case Err(_) => 0
      case Ok(dests) => |dests|
  }

  ghost predicate HasTag(net: Net, d: Decision, t: string) {
    exists i :: 0 <= i < Wants(net, d) && t == PolicyTag(d, i)
  }

  /** The client of the first of `n` decisions that asks for the tag. */
  ghost function FirstUser(net: Net, ds: seq<Decision>, n: nat, t: string): Option<string>
    requires n <= |ds|
  {
    if n == 0 then None
    else if FirstUser(net, ds, n - 1, t).Some? then FirstUser(net, ds, n - 1, t)
    else if HasTag(net, ds[n - 1], t) then Some(ds[n - 1].clientEmail)
    else None
  }

  ghost predicate HasRule(rules: seq<Rule>, t: string, user: string) {
    exists i :: 0 <= i < |rules| && rules[i].Generated? && rules[i].tag == t && rules[i].user == user
  }

  /** A decision adds a rule for each of its tags that is new. */
  lemma {:induction false} AddBackOwner(d: Decision, outbound: string, dests: seq<string>, n: nat, acc: Acc, t: string, u: string)
    requires n <= |dests|
    ensures var r := AddBack(d, outbound, dests, n, acc);
      var asked := exists i :: 0 <= i < n && t == PolicyTag(d, i);
      && (t in r.seen <==> t in acc.seen || asked)
      && (HasRule(r.back, t, u) <==> HasRule(acc.back, t, u) || (asked && t !in acc.seen && u == d.clientEmail))
    decreases n
  {
    hide PolicyTag, Select;
    if n > 0 {
      AddBackOwner(d, outbound, dests, n - 1, acc, t, u);
      var a := AddBack(d, outbound, dests, n - 1, acc);
      var tag := PolicyTag(d, n - 1);
      HasRulePush(a.back, Generated(tag, d.clientEmail, Select(dests[n - 1]), outbound), t, u);
    }
  }

  lemma HasRulePush(rules: seq<Rule>, r: Rule, t: string, u: string)
    requires r.Generated?
    ensures HasRule(rules + [r], t, u) <==> HasRule(rules, t, u) || (r.tag == t && r.user == u)
  {
    if HasRule(rules, t, u) {
      var i :| 0 <= i < |rules| && rules[i].Generated? && rules[i].tag == t && rules[i].user == u;
      assert (rules + [r])[i] == rules[i];
    }
    assert (rules + [r])[|rules|] == r;
  }

  /** A tag's rule is the first asker's, and nobody else's. */
  lemma {:induction false} TagOwner(net: Net, outs: Outbounds, ds: seq<Decision>, n: nat, t: string, u: string)
    requires n <= |ds| && EmitAll(net, outs, ds, n).Ok?
    ensures var acc := EmitAll(net, outs, ds, n).value;
      && (t in acc.seen <==> FirstUser(net, ds, n, t).Some?)
      && (HasRule(acc.back, t, u) <==> FirstUser(net, ds, n, t) == Some(u))
    decreases n
  {
    hide PolicyTag, FrontRules, Supported, SelectOutbound, HasRule, AddBack;
    if n == 0 {
      NoRules(t, u);
    } else {
      TagOwner(net, outs, ds, n - 1, t, u);
      var d, acc := ds[n - 1], EmitAll(net, outs, ds, n - 1).value;
      if !d.quarantined {
        var mid := acc.(front := acc.front + FrontRules(net, outs, d).value);
        var dests := Supported(net, d.policyID, d.destinations).value;
        AddBackOwner(d, SelectOutbound(outs, d.action).value, dests, |dests|, mid, t, u);
      }
    }
  }

  lemma NoRules(t: string, u: string)
    ensures !HasRule([], t, u)
  {
  }

  lemma {:induction false} FirstUserIs(net: Net, ds: seq<Decision>, n: nat, t: string) returns (j: nat)
    requires n <= |ds| && FirstUser(net, ds, n, t).Some?
    ensures j < n && HasTag(net, ds[j], t) && FirstUser(net, ds, n, t) == Some(ds[j].clientEmail)
    ensures forall i :: 0 <= i < j ==> !HasTag(net, ds[i], t)
    decreases n
  {
    hide HasTag;
    if FirstUser(net, ds, n - 1, t).Some? {
      j := FirstUserIs(net, ds, n - 1, t);
    } else {
      j := n - 1;
      NoUser(net, ds, n - 1, t);
    }
  }

  lemma {:induction false} NoUser(net: Net, ds: seq<Decision>, n: nat, t: string)
    requires n <= |ds|
    ensures FirstUser(net, ds, n, t).None? <==> forall i :: 0 <= i < n ==> !HasTag(net, ds[i], t)
    decreases n
  {
    hide HasTag;
    if n > 0 { NoUser(net, ds, n - 1, t); }
  }

  /** The names differ at most in which of the characters @ . : - stands where. */
  ghost predicate Alike(a: string, b: string) {
    |a| == |b| && forall k :: 0 <= k < |a| ==> a[k] == b[k] || (a[k] in "@.:-" && b[k] in "@.:-")
  }

  lemma AlikeIff(a: string, b: string)
    ensures StableClient(a) == StableClient(b) <==> Alike(a, b)
  {
    var x, y := StableClient(a), StableClient(b);
    if |a| == |b| {
      forall k | 0 <= k < |a| ensures x[k] == y[k] <==> a[k] == b[k] || (a[k] in "@.:-" && b[k] in "@.:-") {
        Separator(a[k]);
        Separator(b[k]);
      }
    }
  }

  lemma Separator(c: char)
    ensures StableChar(c) == if c in "@.:-" then '-' else c
  {
    assert forall x :: x in "@.:-" <==> x == '@' || x == '.' || x == ':' || x == '-';
  }

  /** Two decisions whose rules compete for one tag although their clients differ. */
  ghost predicate Collide(net: Net, a: Decision, b: Decision, i: nat) {
    && a.clientEmail != b.clientEmail
    && a.policyID == b.policyID && Alike(a.clientEmail, b.clientEmail)
    && i < Wants(net, a)
  }

  /** The i-th destination rule of the k-th decision is emitted for its client exactly when no
      earlier decision of another client has the same policy, the same stable client name and
      that many destinations: `stableClient` is not injective, and the later rule is dropped. */
  lemma RuleEmittedIff(net: Net, outs: Outbounds, decisions: seq<Decision>, k: nat, i: nat)
    requires k < |Ordered(decisions)| && EmitAll(net, outs, Ordered(decisions), |Ordered(decisions)|).Ok?
    requires i < Wants(net, Ordered(decisions)[k])
    ensures var ds := Ordered(decisions);
      HasRule(EmitAll(net, outs, ds, |ds|).value.back, PolicyTag(ds[k], i), ds[k].clientEmail) <==>
        forall j :: 0 <= j < k ==> !Collide(net, ds[j], ds[k], i)
  {
    hide EmitAll, PolicyTag, Wants, HasRule;
    var ds := Ordered(decisions);
    var t := PolicyTag(ds[k], i);
    TagOwner(net, outs, ds, |ds|, t, ds[k].clientEmail);
    NoUser(net, ds, |ds|, t);
    assert HasTag(net, ds[k], t);
    var j := FirstUserIs(net, ds, |ds|, t);
    forall x | 0 <= x < k ensures HasTag(net, ds[x], t) && ds[x].clientEmail != ds[k].clientEmail <==> Collide(net, ds[x], ds[k], i) {
      TagShared(net, ds[x], ds[k], i);
      AlikeIff(ds[x].clientEmail, ds[k].clientEmail);
    }
    if ds[j].clientEmail == ds[k].clientEmail {
      DecisionOrder();
      SortSorted(decisions, DecisionLess);
      forall x | 0 <= x < k ensures !Collide(net, ds[x], ds[k], i) {
        if x > j {
          Between(ds[j], ds[x], ds[k]);
        }
      }
    }
  }

  lemma TagShared(net: Net, a: Decision, b: Decision, i: nat)
    ensures HasTag(net, a, PolicyTag(b, i)) <==>
      a.policyID == b.policyID && StableClient(a.clientEmail) == StableClient(b.clientEmail) && i < Wants(net, a)
  {
    hide Wants, StableClient, NatToString;
    if HasTag(net, a, PolicyTag(b, i)) {
      var x :| 0 <= x < Wants(net, a) && PolicyTag(b, i) == PolicyTag(a, x);
      TagInjective(b, i, a, x);
    } else if a.policyID == b.policyID && StableClient(a.clientEmail) == StableClient(b.clientEmail) {
      assert PolicyTag(b, i) == PolicyTag(a, i);
    }
  }

  lemma Between(a: Decision, x: Decision, b: Decision)
    requires !DecisionLess(x, a) && !DecisionLess(b, x) && a.clientEmail == b.clientEmail
    ensures x.clientEmail == a.clientEmail
  {
    if x.clientEmail != a.clientEmail {
      EmailNegTransitive(x.clientEmail, a.clientEmail, x.clientEmail);
    }
  }

  /** Two clients of one policy whose names differ in '.' and '@' only: the second gets no rule. */
  lemma CollisionDropsRule(net: Net, outs: Outbounds, a: Decision, x: string)
    requires Plain(net, outs, a, x) && a.clientEmail == "a.b@c"
    ensures var b := a.(clientEmail := "a@b.c");
      && Ordered([a, b]) == [a, b] && EmitAll(net, outs, [a, b], 2).Ok?
      && Wants(net, b) == 1 && !HasRule(EmitAll(net, outs, [a, b], 2).value.back, PolicyTag(b, 0), "a@b.c")
  {
    hide Select, SelectOutbound, Supported, EmitOne, Sort, EmitAll, StableClient;
    var b := a.(clientEmail := "a@b.c");
    SameStable();
    assert PolicyTag(a, 0) == PolicyTag(b, 0);
    TwoOrdered(a, b);
    OneDecision(net, outs, a, x);
    PlainRule(net, outs, b, x, EmitAll(net, outs, [a], 1).value);
    EmitPair(net, outs, a, b);
  }

  lemma SameStable()
    ensures StableClient("a.b@c") == StableClient("a@b.c")
  {
    assert StableClient("a.b@c") == "a-b-c";
    assert StableClient("a@b.c") == "a-b-c";
  }

  lemma TwoOrdered(a: Decision, b: Decision)
    requires a.clientEmail == "a.b@c" && b.clientEmail == "a@b.c"
    ensures Ordered([a, b]) == [a, b]
  {
    assert a.clientEmail[1..][0] == '.' && b.clientEmail[1..][0] == '@';
    assert !DecisionLess(b, a);
    assert [a, b][1..] == [b] && [b][1..] == [];
    assert Sort([b], DecisionLess) == [b];
  }

  lemma EmitPair(net: Net, outs: Outbounds, a: Decision, b: Decision)
    requires EmitAll(net, outs, [a], 1).Ok?
    ensures EmitAll(net, outs, [a, b], 2) == EmitOne(net, outs, b, EmitAll(net, outs, [a], 1).value)
  {
    hide EmitOne;
    assert EmitAll(net, outs, [a, b], 0) == EmitAll(net, outs, [a], 0);
    assert EmitAll(net, outs, [a, b], 1) == EmitAll(net, outs, [a], 1);
  }

  /** There are such decisions. */
  lemma PlainExists(net: Net, d: Decision)
    requires d.action == "deny" && !d.quarantined && !d.managedDNS && d.destinations == ["x.y"]
    ensures Plain(net, Outbounds([Outbound("blocked", "blackhole")]), d, "x.y")
  {
    hide TrimSpace, Normalize;
    DomainDestination(net, d.policyID);
    assert ["x.y"][..0] == [];
    assert Supported(net, d.policyID, []) == Ok([]);
    assert Outbounds([Outbound("blocked", "blackhole")]).items[0].tag == Wanted("deny");
  }

  /** For a decision that compiles, the outbounds Preview shows are those of its rules exactly if
      they have the names Preview takes for granted. */
  lemma NamedIff(net: Net, outs: Outbounds, d: Decision, acc: Acc)
    requires EmitOne(net, outs, d, acc).Ok?
    ensures Named(outs, d) <==>
      && (d.managedDNS ==> AnswersDns(outs, d.dnsOutboundTag, d.dnsOutboundTag))
      && (!d.quarantined ==> LeavesBy(outs, d.action, if d.action == "allow" then "direct" else "blocked"))
  {
    hide ToLower, AllowRules, AddBack, Supported;
    if d.managedDNS {
      var tag := DnsOutboundFrom(outs.items, d.dnsOutboundTag, 0).value;
      assert AnswersDns(outs, d.dnsOutboundTag, tag);
    }
    SelectOutboundSpec(outs, d.action);
  }

  /** Without a "direct" outbound the preview still names it, while the rule takes the freedom one. */
  lemma PreviewMisnames(net: Net, d: Decision)
    requires d.action == "allow" && !d.quarantined && !d.managedDNS && d.destinations == ["x.y"]
    ensures var outs := Outbounds([Outbound("out", "freedom")]);
      && EmitAll(net, outs, [d], 1).Ok? && |EmitAll(net, outs, [d], 1).value.back| == |ShowAll(net, [d], 1).previews| == 1
      && EmitAll(net, outs, [d], 1).value.back == [Generated(PolicyTag(d, 0), d.clientEmail, Select("x.y"), "out")] && ShowAll(net, [d], 1).previews[0].outboundTag == "direct"
  {
    hide TrimSpace, Normalize, PolicyTag, Select, EmitAll;
    var outs := Outbounds([Outbound("out", "freedom")]);
    DomainDestination(net, d.policyID);
    assert ["x.y"][..0] == [];
    assert Supported(net, d.policyID, []) == Ok([]);
    assert Supported(net, d.policyID, d.destinations) == Ok(["x.y"]);
    assert ToLower("freedom") == "freedom";
    OneDecision(net, outs, d, "x.y");
    assert ShowAll(net, [d], 0) == Shown([], {});
    assert ShowBack(d, ["x.y"], 0, Shown([], {})) == Shown([], {});
  }

  lemma DomainDestination(net: Net, id: nat)
    ensures Normalize(net, id, "x.y") == Good("x.y")
  {
    assert TrimLeft("x.y") == "x.y" && TrimRight("x.y") == "x.y";
    assert ToLower("x.y") == "x.y";
    assert "x.y"[1] == '.';
  }
}
