/** From policy rows to routed connections: resolution, decision and compilation together. */
module PolicyEndToEnd {
  import opened Text
  import opened PolicyModel
  import D = PolicyDecision
  import C = PolicyCompiler
  import R = PolicyRouting

  /** Some policy that applies to the client quarantines it, and nothing releases it. */
  ghost predicate MustIsolate(db: D.Db, q: D.Query) {
    D.Resolved(db, q).Ok? &&
    var items := D.Resolved(db, q).value;
    && (exists i :: 0 <= i < |items| && D.Quarantines(db, items[i]))
    && !exists i :: 0 <= i < |items| && D.Releases(db, items[i])
  }

  /** Quarantine end to end. Whatever else is assigned to a client, overridden for it or decided
      for others, and whatever the operator's rules say: if a policy that applies to it
      quarantines and no active dedicated release does, then every connection of that client
      first-matches a DNS rule, an allowlist rule or the block of its own decisions. */
  lemma QuarantineEndToEnd(db: D.Db, clients: seq<D.Query>, k: nat, net: C.Net, cfg: C.Config, sem: R.Sem, c: R.Conn)
    requires k < |clients| && clients[k].email == c.user && MustIsolate(db, clients[k])
    requires D.DecideAll(db, clients, |clients|).Ok?
    requires R.Clean(cfg) && C.Compiled(net, cfg, D.DecideAll(db, clients, |clients|).value).err.None?
    ensures var ds := D.DecideAll(db, clients, |clients|).value;
      var m := R.FirstMatch(sem, R.RulesOf(C.Compiled(net, cfg, ds).cfg), c);
      m.Some? && exists d :: d in ds && d.clientEmail == c.user && R.FrontRuleOf(net, cfg.outbounds, d, m.value)
  {
    hide D.Decide, D.DecideAll, C.Compiled, R.FirstMatch, R.FrontRuleOf, D.Resolved, R.Clean;
    var ds := D.DecideAll(db, clients, |clients|).value;
    D.DecideAllHas(db, clients, |clients|, k);
    D.DecisionQuarantinedIff(db, clients[k]);
    var d := D.Decide(db, clients[k]).value.value;
    R.QuarantineIsolates(net, cfg, ds, sem, c, d);
  }

  /** A client that no decision mentions is not affected by anybody's policies. */
  lemma NoPolicyNoEffect(db: D.Db, clients: seq<D.Query>, net: C.Net, cfg: C.Config, sem: R.Sem, c: R.Conn)
    requires D.DecideAll(db, clients, |clients|).Ok? && R.Clean(cfg)
    requires forall k :: 0 <= k < |clients| && clients[k].email == c.user ==> D.Decide(db, clients[k]) == Ok(None)
    ensures R.FirstMatch(sem, R.RulesOf(C.Compiled(net, cfg, D.DecideAll(db, clients, |clients|).value).cfg), c)
      == R.FirstMatch(sem, R.RulesOf(cfg), c)
  {
    hide D.Decide, D.DecideAll, C.Compiled, R.FirstMatch, R.Clean;
    DecisionsOf(db, clients, |clients|);
    var ds := D.DecideAll(db, clients, |clients|).value;
    forall d | d in ds ensures d.clientEmail != c.user {
      var k :| 0 <= k < |clients| && D.Decide(db, clients[k]) == Ok(Some(d)) && d.clientEmail == clients[k].email;
    }
    R.UndecidedUnaffected(net, cfg, ds, sem, c);
  }

  /** Every decision is the decision of one of the clients, under its email. */
  lemma {:induction false} DecisionsOf(db: D.Db, clients: seq<D.Query>, n: nat)
    requires n <= |clients| && D.DecideAll(db, clients, n).Ok?
    ensures forall d :: d in D.DecideAll(db, clients, n).value ==>
      exists k :: 0 <= k < n && D.Decide(db, clients[k]) == Ok(Some(d)) && d.clientEmail == clients[k].email
    decreases n
  {
    hide D.Decide;
    if n > 0 {
      DecisionsOf(db, clients, n - 1);
      var q := clients[n - 1];
      DecisionEmail(db, q);
      var before, after := D.DecideAll(db, clients, n - 1).value, D.DecideAll(db, clients, n).value;
      forall d | d in after
        ensures exists k :: 0 <= k < n && D.Decide(db, clients[k]) == Ok(Some(d)) && d.clientEmail == clients[k].email
      {
        if d in before {
          var k :| 0 <= k < n - 1 && D.Decide(db, clients[k]) == Ok(Some(d)) && d.clientEmail == clients[k].email;
        } else {
          assert D.Decide(db, clients[n - 1]) == Ok(Some(d));
        }
      }
    }
  }

  lemma DecisionEmail(db: D.Db, q: D.Query)
    ensures D.Decide(db, q).Ok? && D.Decide(db, q).value.Some? ==> D.Decide(db, q).value.value.clientEmail == q.email
  {
    hide D.Resolved, D.WinnerSpec, D.CapsOf;
  }
}
