/** Exactly when a compilation succeeds. */
module PolicyFailure {
  import opened Text
  import opened Sorting
  import opened PolicyModel
  import opened PolicyCompiler
  import opened PolicyRouting

  ghost predicate Understood(net: Net, raw: string) {
    exists s :: StandsFor(net, raw, s)
  }

  /** The decision names an action, and everything its rules need is there and can be read. */
  ghost predicate Compilable(net: Net, outs: Outbounds, d: Decision) {
    && d.action in ["allow", "deny"]
    && (d.managedDNS ==> (d.safeSearch ==> d.dnsOutboundTag != "") && exists tag :: AnswersDns(outs, d.dnsOutboundTag, tag))
    && (d.quarantined ==> forall k :: 0 <= k < |d.quarantineAllowlist| ==> Understood(net, d.quarantineAllowlist[k]))
    && (!d.quarantined ==>
          && (exists tag :: LeavesBy(outs, d.action, tag))
          && forall k :: 0 <= k < |d.destinations| ==> TrimSpace(d.destinations[k]) == "" || Understood(net, d.destinations[k]))
  }

  lemma DnsOkIff(outs: Outbounds, d: Decision)
    ensures DnsRules(outs, d).Ok? <==>
      (d.managedDNS ==> (d.safeSearch ==> d.dnsOutboundTag != "") && exists tag :: AnswersDns(outs, d.dnsOutboundTag, tag))
  {
    hide ToLower;
    if outs.Outbounds? {
      var r := DnsOutboundFrom(outs.items, d.dnsOutboundTag, 0);
      if r.Some? { assert AnswersDns(outs, d.dnsOutboundTag, r.value); }
    }
  }

  lemma {:induction false} AllowOkIff(net: Net, d: Decision, n: nat)
    requires n <= |d.quarantineAllowlist|
    ensures AllowRules(net, d, n).Ok? <==> forall k :: 0 <= k < n ==> Understood(net, d.quarantineAllowlist[k])
    decreases n
  {
    hide Normalize, AllowTag, StandsFor;
    if n > 0 {
      AllowOkIff(net, d, n - 1);
      NormalizeSpec(net, d.policyID, d.quarantineAllowlist[n - 1]);
      var got := Normalize(net, d.policyID, d.quarantineAllowlist[n - 1]);
      if got.Good? { assert StandsFor(net, d.quarantineAllowlist[n - 1], got.destination); }
    }
  }

  lemma OneOkIff(net: Net, outs: Outbounds, d: Decision, acc: Acc)
    ensures EmitOne(net, outs, d, acc).Ok? <==> Compilable(net, outs, d)
  {
    hide DnsRules, AllowRules, SelectOutbound, Supported, AddBack, StandsFor, LeavesBy, AnswersDns, TrimSpace;
    DnsOkIff(outs, d);
    AllowOkIff(net, d, |d.quarantineAllowlist|);
    SupportedMeans(net, d.policyID, d.destinations);
    if d.action in ["allow", "deny"] { SelectOutboundSpec(outs, d.action); }
  }

  lemma {:induction false} EmitOkIff(net: Net, outs: Outbounds, ds: seq<Decision>, n: nat)
    requires n <= |ds|
    ensures EmitAll(net, outs, ds, n).Ok? <==> forall j :: 0 <= j < n ==> Compilable(net, outs, ds[j])
    decreases n
  {
    hide EmitOne, Compilable;
    if n > 0 {
      EmitOkIff(net, outs, ds, n - 1);
      if EmitAll(net, outs, ds, n - 1).Ok? { OneOkIff(net, outs, ds[n - 1], EmitAll(net, outs, ds, n - 1).value); }
    }
  }

  /** Compile succeeds exactly if the routing section is a list of rules, or has none, and every
      decision can be compiled; with no decisions it always does. When it fails, it hands the
      config back as it was. */
  lemma CompileOkIff(net: Net, cfg: Config, ds: seq<Decision>)
    ensures Compiled(net, cfg, ds).err.None? <==>
      || ds == []
      || (cfg.routing.Routing? && (cfg.routing.rules.Absent? || (cfg.routing.rules.List? && AllObjects(cfg.routing.rules.items)))
            && forall d :: d in ds ==> Compilable(net, cfg.outbounds, d))
    ensures Compiled(net, cfg, ds).err.Some? ==> Compiled(net, cfg, ds).cfg == cfg
  {
    hide EmitAll, Ordered, Compilable, Kept;
    EmitOkIff(net, cfg.outbounds, Ordered(ds), |Ordered(ds)|);
    OrderedElements(ds);
    assert forall d :: d in Ordered(ds) ==> exists j :: 0 <= j < |Ordered(ds)| && Ordered(ds)[j] == d;
  }
}
