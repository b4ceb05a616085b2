/** The Xray routing-rule compiler: decisions in, routing section out, and its dry-run preview. */
module PolicyCompiler {
  import opened Text
  import opened Sorting
  import opened StringSets
  import opened PolicyModel

  const RULE_TAG_PREFIX := "catx-policy-"
  const QUARANTINE_TAG_PREFIX := "catx-quarantine-"
  const DNS_TAG_PREFIX := "catx-dns-"

  /** What a generated rule selects besides its user. */
  datatype Selector = DnsPort | Domain(domain: string) | IP(cidr: string) | Everything

  /** A routing rule: one the operator wrote, kept as opaque JSON, or a generated one. */
  datatype Rule =
    | Operator(tag: string, body: string)
    | Generated(tag: string, user: string, sel: Selector, outbound: string)

  /** An element of routing.rules before its shape is checked. */
  datatype Item = NotAnObject | Obj(rule: Rule)

  datatype RuleField = Absent | NotAList | List(items: seq<Item>)

  datatype Routing = Undecodable | Routing(rules: RuleField, rest: string)

  /** The two fields of an outbound that are read; "" for a missing or non-string one. */
  datatype Outbound = Outbound(tag: string, protocol: string)

  datatype Outbounds = BadOutbounds | Outbounds(items: seq<Outbound>)

  datatype Config = Config(routing: Routing, outbounds: Outbounds, rest: string)

  datatype Error =
    | RoutingDecode | RulesShape | RuleShape
    | UnsupportedAction(policyID: nat) | SafeSearchTag(policyID: nat) | NoDNSOutbound(policyID: nat)
    | MalformedIP(policyID: nat) | MalformedCIDR(policyID: nat) | UnsupportedDestination(policyID: nat)
    | MalformedAllowlist(policyID: nat) | OutboundsDecode | NoOutbound(action: string)

  /** net.ParseIP(s) != nil and net.ParseCIDR(s) succeeding. */
  datatype Net = Net(isIP: string -> bool, isCIDR: string -> bool)

  /** Every branch of Compile hands back a config, changed or not, beside its error. */
  datatype Outcome = Outcome(cfg: Config, err: Option<Error>)

  // ----- tags

  function StableChar(c: char): char {
    if c == '@' || c == '.' || c == ':' then '-' else c
  }

  function StableClient(email: string): (r: string)
    ensures |r| == |email|
  {
    seq(|email|, i requires 0 <= i < |email| => StableChar(email[i]))
  }

  function PolicyTag(d: Decision, i: nat): string {
    RULE_TAG_PREFIX + NatToString(d.policyID) + "-" + StableClient(d.clientEmail) + "-" + NatToString(i)
  }

  function QuarantineTag(d: Decision): string {
    QUARANTINE_TAG_PREFIX + StableClient(d.clientEmail)
  }

  function AllowTag(d: Decision, i: nat): string {
    QUARANTINE_TAG_PREFIX + StableClient(d.clientEmail) + "-" + NatToString(i)
  }

  function DnsTag(d: Decision): string {
    DNS_TAG_PREFIX + StableClient(d.clientEmail)
  }

  predicate IsCatX(tag: string) {
    HasPrefix(tag, RULE_TAG_PREFIX) || HasPrefix(tag, QUARANTINE_TAG_PREFIX) || HasPrefix(tag, DNS_TAG_PREFIX)
  }

  // ----- destinations

  datatype Normalized = Blank | Bad(error: Error) | Good(destination: string)

  /** One turn of the loop of supportedDestinations. */
  function Normalize(net: Net, policyID: nat, raw: string): Normalized {
    var s := ToLower(TrimSpace(raw));
    if s == "" then Blank else
      var s := TrimPrefix(s, "domain:");
      if HasPrefix(s, "ip:") then
        if net.isIP(s[3..]) then Good(s) else Bad(MalformedIP(policyID))
      else if '/' in s then
        if net.isCIDR(s) then Good("ip:" + s) else Bad(MalformedCIDR(policyID))
      else if ' ' in s || '\\' in s || '.' !in s then Bad(UnsupportedDestination(policyID))
      else Good(s)
  }

  /** What is left of a destination's text: lower case, without space around it or a leading
      "domain:". */
  function Bare(raw: string): string {
    var t := ToLower(TrimSpace(raw));
    if |t| >= 7 && t[..7] == "domain:" then t[7..] else t
  }

  /** `s` is the destination that the text `raw` stands for: "ip:" and an address or range, or a
      domain name. */
  ghost predicate StandsFor(net: Net, raw: string, s: string) {
    var u := Bare(raw);
    && ToLower(TrimSpace(raw)) != ""
    && (if "ip:" <= u then net.isIP(u[3..]) && s == u
        else if '/' in u then net.isCIDR(u) && s == "ip:" + u
        else '.' in u && ' ' !in u && '\\' !in u && s == u)
  }

  /** Normalize succeeds with what the text stands for, skips blank text, and otherwise says why not. */
  lemma NormalizeSpec(net: Net, policyID: nat, raw: string)
    ensures forall s :: Normalize(net, policyID, raw) == Good(s) <==> StandsFor(net, raw, s)
    ensures Normalize(net, policyID, raw).Blank? <==> TrimSpace(raw) == ""
    ensures forall e :: Normalize(net, policyID, raw) == Bad(e) ==>
      e == if "ip:" <= Bare(raw) then MalformedIP(policyID) else if '/' in Bare(raw) then MalformedCIDR(policyID)
           else UnsupportedDestination(policyID)
  {
    hide TrimSpace;
    var t := ToLower(TrimSpace(raw));
    assert "domain:" <= t <==> |t| >= 7 && t[..7] == "domain:";
  }

  /** The destinations in order, or the error of the first one that has none. */
  ghost predicate SupportedIs(net: Net, policyID: nat, raws: seq<string>, r: Result<seq<string>, Error>) {
    match r
    case Ok(out) =>
      && (forall i :: 0 <= i < |raws| ==> !Normalize(net, policyID, raws[i]).Bad?)
      && Ascending(out)
      && (forall x :: x in out <==> exists i :: 0 <= i < |raws| && Normalize(net, policyID, raws[i]) == Good(x))
    case Err(e) =>
      exists i :: 0 <= i < |raws| && Normalize(net, policyID, raws[i]) == Bad(e)
        && forall j :: 0 <= j < i ==> !Normalize(net, policyID, raws[j]).Bad?
  }

  function Supported(net: Net, policyID: nat, raws: seq<string>): Result<seq<string>, Error> {
    if raws == [] then Ok([]) else
      match Supported(net, policyID, raws[..|raws| - 1])
      case Err(e) => Err(e)
      case Ok(out) =>
        match Normalize(net, policyID, raws[|raws| - 1])
        case Blank => Ok(out)
        case Bad(e) => Err(e)
        case Good(s) => Ok(AddSorted(out, s))
  }

  /** The result is the ordered set of normalized destinations, and the first error wins. */
  lemma {:induction false} SupportedSpec(net: Net, policyID: nat, raws: seq<string>)
    ensures SupportedIs(net, policyID, raws, Supported(net, policyID, raws))
    decreases |raws|
  {
    hide Normalize, AddSorted;
    if raws != [] {
      var front, n := raws[..|raws| - 1], |raws| - 1;
      SupportedSpec(net, policyID, front);
      assert forall i :: 0 <= i < n ==> front[i] == raws[i];
      match Supported(net, policyID, front)
      case Err(e) =>
        var i :| 0 <= i < |front| && Normalize(net, policyID, front[i]) == Bad(e)
          && forall j :: 0 <= j < i ==> !Normalize(net, policyID, front[j]).Bad?;
        assert Normalize(net, policyID, raws[i]) == Bad(e);
      case Ok(out) =>
        match Normalize(net, policyID, raws[n])
        case Bad(e) => assert Normalize(net, policyID, raws[n]) == Bad(e);
        case Blank => SupportedGrow(net, policyID, raws, out, out);
        case Good(s) => AddSortedFacts(out, s); SupportedGrow(net, policyID, raws, out, AddSorted(out, s));
    }
  }

  lemma SupportedGrow(net: Net, policyID: nat, raws: seq<string>, out: seq<string>, more: seq<string>)
    requires raws != [] && SupportedIs(net, policyID, raws[..|raws| - 1], Ok(out))
    requires var last := Normalize(net, policyID, raws[|raws| - 1]);
      && !last.Bad?
      && forall x :: x in more <==> x in out || last == Good(x)
    ensures forall x :: x in more <==> exists i :: 0 <= i < |raws| && Normalize(net, policyID, raws[i]) == Good(x)
  {
    hide Normalize;
    var front, n := raws[..|raws| - 1], |raws| - 1;
    forall x ensures x in more <==> exists i :: 0 <= i < |raws| && Normalize(net, policyID, raws[i]) == Good(x) {
      if x in out {
        var i :| 0 <= i < |front| && Normalize(net, policyID, front[i]) == Good(x);
        assert Normalize(net, policyID, raws[i]) == Good(x);
      }
      if exists i :: 0 <= i < |raws| && Normalize(net, policyID, raws[i]) == Good(x) {
        var i :| 0 <= i < |raws| && Normalize(net, policyID, raws[i]) == Good(x);
        if i < n { assert Normalize(net, policyID, front[i]) == Good(x); }
      }
    }
  }

  /** What supportedDestinations promises is met by one result only. */
  lemma SupportedUnique(net: Net, policyID: nat, raws: seq<string>, a: Result<seq<string>, Error>, b: Result<seq<string>, Error>)
    requires SupportedIs(net, policyID, raws, a) && SupportedIs(net, policyID, raws, b)
    ensures a == b
  {
    hide Normalize;
    if a.Ok? && b.Ok? {
      AscendingUnique(a.value, b.value);
    } else if a.Err? && b.Err? {
      var i :| 0 <= i < |raws| && Normalize(net, policyID, raws[i]) == Bad(a.error)
        && forall j :: 0 <= j < i ==> !Normalize(net, policyID, raws[j]).Bad?;
      var k :| 0 <= k < |raws| && Normalize(net, policyID, raws[k]) == Bad(b.error)
        && forall j :: 0 <= j < k ==> !Normalize(net, policyID, raws[j]).Bad?;
      assert i == k;
    }
  }

  /** The same, told from the texts: supported are those that are blank or stand for something. */
  lemma SupportedMeans(net: Net, policyID: nat, raws: seq<string>)
    ensures var r := Supported(net, policyID, raws);
      && (r.Ok? <==> forall i :: 0 <= i < |raws| ==> TrimSpace(raws[i]) == "" || exists s :: StandsFor(net, raws[i], s))
      && (r.Ok? ==> Ascending(r.value) && forall x :: x in r.value <==> exists i :: 0 <= i < |raws| && StandsFor(net, raws[i], x))
  {
    hide Normalize, StandsFor, Supported, TrimSpace;
    SupportedSpec(net, policyID, raws);
    forall i | 0 <= i < |raws|
      ensures forall s :: Normalize(net, policyID, raws[i]) == Good(s) <==> StandsFor(net, raws[i], s)
      ensures !Normalize(net, policyID, raws[i]).Bad? <==> TrimSpace(raws[i]) == "" || exists s :: StandsFor(net, raws[i], s)
    {
      NormalizeSpec(net, policyID, raws[i]);
      var n := Normalize(net, policyID, raws[i]);
      assert n.Good? ==> StandsFor(net, raws[i], n.destination);
    }
  }

  /** The loop over a set of strings in any order, then the sort. */
  method SupportedDestinations(net: Net, policyID: nat, raws: seq<string>) returns (r: Result<seq<string>, Error>)
    ensures r == Supported(net, policyID, raws)
  {
    hide Normalize, Less;
    var found: set<string> := {};
    for i := 0 to |raws|
      invariant forall j :: 0 <= j < i ==> !Normalize(net, policyID, raws[j]).Bad?
      invariant forall x :: x in found <==> exists j :: 0 <= j < i && Normalize(net, policyID, raws[j]) == Good(x)
    {
      match Normalize(net, policyID, raws[i])
      case Blank =>
      case Bad(e) =>
        SupportedSpec(net, policyID, raws);
        SupportedUnique(net, policyID, raws, Err(e), Supported(net, policyID, raws));
        return Err(e);
      case Good(s) =>
        found := found + {s};
    }
    var out := SortedElements(found);
    SupportedSpec(net, policyID, raws);
    SupportedUnique(net, policyID, raws, Ok(out), Supported(net, policyID, raws));
    return Ok(out);
  }

  // ----- outbounds

  predicate DnsFits(o: Outbound, requested: string) {
    ToLower(o.protocol) == "dns" && (requested == "" || o.tag == requested) && o.tag != ""
  }

  ghost predicate NoneFits(outs: seq<Outbound>, requested: string, lo: nat, hi: nat)
    requires hi <= |outs|
  {
    forall j :: lo <= j < hi ==> !DnsFits(outs[j], requested)
  }

  /** selectDNSOutbound: the first dns outbound that the request admits. */
  function DnsOutboundFrom(outs: seq<Outbound>, requested: string, i: nat): (r: Option<string>)
    requires i <= |outs|
    ensures r.Some? ==>
      exists k :: i <= k < |outs| && DnsFits(outs[k], requested) && outs[k].tag == r.value && NoneFits(outs, requested, i, k)
    ensures r.None? ==> forall k :: i <= k < |outs| ==> !DnsFits(outs[k], requested)
    decreases |outs| - i
  {
    if i == |outs| then None
    else if DnsFits(outs[i], requested) then Some(outs[i].tag)
    else DnsOutboundFrom(outs, requested, i + 1)
  }

  function Wanted(action: string): string {
    if action == "allow" then "direct" else "blocked"
  }

  function ProtocolFrom(outs: seq<Outbound>, action: string, i: nat): Option<string>
    requires i <= |outs|
    decreases |outs| - i
  {
    if i == |outs| then None
    else if action == "allow" && ToLower(outs[i].protocol) == "freedom" then Some(outs[i].tag)
    else if action == "deny" && ToLower(outs[i].protocol) == "blackhole" then Some(outs[i].tag)
    else ProtocolFrom(outs, action, i + 1)
  }

  /** selectOutbound: the well-known tag if there is one, else the first fitting protocol. */
  function SelectOutbound(outs: Outbounds, action: string): Result<string, Error> {
    if outs.BadOutbounds? then Err(OutboundsDecode)
    else if exists i :: 0 <= i < |outs.items| && outs.items[i].tag == Wanted(action) then Ok(Wanted(action))
    else match ProtocolFrom(outs.items, action, 0)
      case Some(tag) => Ok(tag)
      case None => Err(NoOutbound(action))
  }

  /** `tag` names the way out: `name` if some outbound has that tag, else the tag of the first
      outbound of the protocol. */
  ghost predicate WayOut(outs: seq<Outbound>, name: string, protocol: string, tag: string) {
    if exists i :: 0 <= i < |outs| && outs[i].tag == name then tag == name
    else exists i :: 0 <= i < |outs| && ToLower(outs[i].protocol) == protocol && outs[i].tag == tag
           && forall j :: 0 <= j < i ==> ToLower(outs[j].protocol) != protocol
  }

  /** Where what an action concerns is sent. */
  ghost predicate LeavesBy(outs: Outbounds, action: string, tag: string) {
    && outs.Outbounds?
    && (action == "allow" ==> WayOut(outs.items, "direct", "freedom", tag))
    && (action == "deny" ==> WayOut(outs.items, "blocked", "blackhole", tag))
  }

  lemma {:induction false} ProtocolFirst(outs: seq<Outbound>, action: string, protocol: string, i: nat)
    requires i <= |outs| && (action, protocol) in [("allow", "freedom"), ("deny", "blackhole")]
    requires forall j :: 0 <= j < i ==> ToLower(outs[j].protocol) != protocol
    ensures var r := ProtocolFrom(outs, action, i);
      if r.None? then forall j :: 0 <= j < |outs| ==> ToLower(outs[j].protocol) != protocol
      else exists k :: 0 <= k < |outs| && ToLower(outs[k].protocol) == protocol && outs[k].tag == r.value
             && forall j :: 0 <= j < k ==> ToLower(outs[j].protocol) != protocol
    decreases |outs| - i
  {
    hide ToLower;
    if i < |outs| && ToLower(outs[i].protocol) != protocol {
      ProtocolFirst(outs, action, protocol, i + 1);
    }
  }

  /** An allowed destination leaves by "direct" or the first freedom outbound, a denied one by
      "blocked" or the first blackhole; without either the compiler gives up. */
  lemma SelectOutboundSpec(outs: Outbounds, action: string)
    requires action in ["allow", "deny"]
    ensures var r := SelectOutbound(outs, action);
      && (r.Ok? ==> LeavesBy(outs, action, r.value))
      && (r.Err? ==> forall tag :: !LeavesBy(outs, action, tag))
      && (outs.BadOutbounds? ==> r == Err(OutboundsDecode))
  {
    hide ToLower, ProtocolFrom;
    if outs.Outbounds? {
      ProtocolFirst(outs.items, action, if action == "allow" then "freedom" else "blackhole", 0);
    }
  }

  /** A dns outbound is the first one with a tag that the request, if any, names. */
  ghost predicate AnswersDns(outs: Outbounds, requested: string, tag: string) {
    && outs.Outbounds?
    && exists i :: 0 <= i < |outs.items| && outs.items[i].tag == tag && CanAnswer(outs.items[i], requested)
         && forall j :: 0 <= j < i ==> !CanAnswer(outs.items[j], requested)
  }

  ghost predicate CanAnswer(o: Outbound, requested: string) {
    ToLower(o.protocol) == "dns" && o.tag != "" && requested in ["", o.tag]
  }

  // ----- the rules of one decision

  function DnsRules(outs: Outbounds, d: Decision): Result<seq<Rule>, Error> {
    if !d.managedDNS then Ok([])
    else if d.safeSearch && d.dnsOutboundTag == "" then Err(SafeSearchTag(d.policyID))
    else if outs.BadOutbounds? then Err(NoDNSOutbound(d.policyID))
    else match DnsOutboundFrom(outs.items, d.dnsOutboundTag, 0)
      case None => Err(NoDNSOutbound(d.policyID))
      case Some(tag) => Ok([Generated(DnsTag(d), d.clientEmail, DnsPort, tag)])
  }

  /** The rules of the first `n` allowlist entries. */
  function AllowRules(net: Net, d: Decision, n: nat): Result<seq<Rule>, Error>
    requires n <= |d.quarantineAllowlist|
  {
    if n == 0 then Ok([]) else
      match AllowRules(net, d, n - 1)
      case Err(e) => Err(e)
      case Ok(rules) =>
        match Normalize(net, d.policyID, d.quarantineAllowlist[n - 1])
        case Blank => Err(MalformedAllowlist(d.policyID))
        case Bad(e) => Err(e)
        case Good(s) => Ok(rules + [Generated(AllowTag(d, n - 1), d.clientEmail, Domain(s), "direct")])
  }

  function CatchAll(d: Decision): Rule {
    Generated(QuarantineTag(d), d.clientEmail, Everything, "blocked")
  }

  /** The rules of a decision that go in front of the operator's. */
  function FrontRules(net: Net, outs: Outbounds, d: Decision): Result<seq<Rule>, Error> {
    match DnsRules(outs, d)
    case Err(e) => Err(e)
    case Ok(dns) =>
      if !d.quarantined then Ok(dns) else
        match AllowRules(net, d, |d.quarantineAllowlist|)
        case Err(e) => Err(e)
        case Ok(allow) => Ok(dns + allow + [CatchAll(d)])
  }

  function Select(destination: string): Selector {
    if HasPrefix(destination, "ip:") then IP(destination[3..]) else Domain(destination)
  }

  /** `front` and `back` are the generated rules before and after the operator's; `seen` holds
      the rule tags of `back`. */
  datatype Acc = Acc(front: seq<Rule>, back: seq<Rule>, seen: set<string>)

  /** The rules for the first `n` destinations; a tag that was used before is skipped. */
  function AddBack(d: Decision, outbound: string, dests: seq<string>, n: nat, acc: Acc): Acc
    requires n <= |dests|
  {
    if n == 0 then acc else
      var acc := AddBack(d, outbound, dests, n - 1, acc);
      var tag := PolicyTag(d, n - 1);
      if tag in acc.seen then acc else
        acc.(back := acc.back + [Generated(tag, d.clientEmail, Select(dests[n - 1]), outbound)], seen := acc.seen + {tag})
  }

  function EmitOne(net: Net, outs: Outbounds, d: Decision, acc: Acc): Result<Acc, Error> {
    if d.action != "allow" && d.action != "deny" then Err(UnsupportedAction(d.policyID)) else
      match FrontRules(net, outs, d)
      case Err(e) => Err(e)
      case Ok(front) =>
        var acc := acc.(front := acc.front + front);
        if d.quarantined then Ok(acc) else
          match SelectOutbound(outs, d.action)
          case Err(e) => Err(e)
          case Ok(outbound) =>
            match Supported(net, d.policyID, d.destinations)
            case Err(e) => Err(e)
            case Ok(dests) => Ok(AddBack(d, outbound, dests, |dests|, acc))
  }

  const EMPTY := Acc([], [], {})

  /** The rules of the first `n` decisions. */
  function EmitAll(net: Net, outs: Outbounds, ds: seq<Decision>, n: nat): Result<Acc, Error>
    requires n <= |ds|
  {
    if n == 0 then Ok(EMPTY) else
      match EmitAll(net, outs, ds, n - 1)
      case Err(e) => Err(e)
      case Ok(acc) => EmitOne(net, outs, ds[n - 1], acc)
  }

  // ----- the whole compilation

  /** The order both Compile and Preview sort by. */
  predicate DecisionLess(a: Decision, b: Decision) {
    if a.clientEmail != b.clientEmail then Less(a.clientEmail, b.clientEmail) else a.policyID < b.policyID
  }

  function Ordered(ds: seq<Decision>): (r: seq<Decision>) {
    Sort(ds, DecisionLess)
  }

  function ItemsOf(f: RuleField): seq<Item>
    requires !f.NotAList?
  {
    if f.List? then f.items else []
  }

  predicate AllObjects(items: seq<Item>) {
    forall i :: 0 <= i < |items| ==> items[i].Obj?
  }

  /** The rules that no earlier compilation generated. */
  function Kept(items: seq<Item>, n: nat): seq<Rule>
    requires AllObjects(items) && n <= |items|
  {
    if n == 0 then []
    else if IsCatX(items[n - 1].rule.tag) then Kept(items, n - 1)
    else Kept(items, n - 1) + [items[n - 1].rule]
  }

  function Objects(rules: seq<Rule>): (items: seq<Item>)
    ensures |items| == |rules|
  {
    seq(|rules|, i requires 0 <= i < |rules| => Obj(rules[i]))
  }

  function Compiled(net: Net, cfg: Config, ds: seq<Decision>): Outcome {
    if ds == [] then Outcome(cfg, None)
    else if cfg.routing.Undecodable? then Outcome(cfg, Some(RoutingDecode))
    else if cfg.routing.rules.NotAList? then Outcome(cfg, Some(RulesShape))
    else
      var items := ItemsOf(cfg.routing.rules);
      if !AllObjects(items) then Outcome(cfg, Some(RuleShape)) else
        var ordered := Ordered(ds);
        match EmitAll(net, cfg.outbounds, ordered, |ordered|)
        case Err(e) => Outcome(cfg, Some(e))
        case Ok(acc) =>
          var rules := acc.front + Kept(items, |items|) + acc.back;
          if |rules| == |items| then Outcome(cfg, None)
          else Outcome(cfg.(routing := cfg.routing.(rules := List(Objects(rules)))), None)
  }

  method Compile(net: Net, cfg: Config, ds: seq<Decision>) returns (out: Config, err: Option<Error>)
    ensures Outcome(out, err) == Compiled(net, cfg, ds)
  {
    hide Normalize, Select, PolicyTag, DnsTag, AllowTag, QuarantineTag, IsCatX, SelectOutbound, DnsRules, EmitOne, CatchAll;
    if |ds| == 0 {
      return cfg, None;
    }
    if cfg.routing.Undecodable? {
      return cfg, Some(RoutingDecode);
    }
    if cfg.routing.rules.NotAList? {
      return cfg, Some(RulesShape);
    }
    var items := ItemsOf(cfg.routing.rules);
    var kept: seq<Rule> := [];
    for i := 0 to |items|
      invariant AllObjects(items[..i])
      invariant forall k :: 0 <= k < i ==> items[k].Obj?
      invariant AllObjects(items) ==> kept == Kept(items, i)
    {
      match items[i]
      case NotAnObject =>
        return cfg, Some(RuleShape);
      case Obj(rule) =>
        if !IsCatX(rule.tag) {
          kept := kept + [rule];
        }
    }
    var ordered := Ordered(ds);
    var generated: set<string> := {};
    var front: seq<Rule> := [];
    var back: seq<Rule> := [];
    for n := 0 to |ordered|
      invariant EmitAll(net, cfg.outbounds, ordered, n) == Ok(Acc(front, back, generated))
    {
      var d := ordered[n];
      var emitted := EmitDecision(net, cfg.outbounds, d, Acc(front, back, generated));
      match emitted
      case Err(e) =>
        EmitStops(net, cfg.outbounds, ordered, n + 1, |ordered|);
        return cfg, Some(e);
      case Ok(acc) =>
        front, back, generated := acc.front, acc.back, acc.seen;
    }
    var rules := front + kept + back;
    if |rules| == |items| {
      return cfg, None;
    }
    return cfg.(routing := cfg.routing.(rules := List(Objects(rules)))), None;
  }

  /** The first decision that cannot be compiled decides the error. */
  lemma {:induction false} EmitStops(net: Net, outs: Outbounds, ds: seq<Decision>, n: nat, m: nat)
    requires n <= m <= |ds| && EmitAll(net, outs, ds, n).Err?
    ensures EmitAll(net, outs, ds, m) == EmitAll(net, outs, ds, n)
    decreases m
  {
    if n < m { EmitStops(net, outs, ds, n, m - 1); }
  }

  /** The body of Compile's loop over decisions. */
  method EmitDecision(net: Net, outs: Outbounds, d: Decision, acc: Acc) returns (r: Result<Acc, Error>)
    ensures r == EmitOne(net, outs, d, acc)
  {
    hide Normalize, Select, PolicyTag, DnsTag, AllowTag, QuarantineTag, SelectOutbound, DnsRules, CatchAll;
    if d.action != "allow" && d.action != "deny" {
      return Err(UnsupportedAction(d.policyID));
    }
    var front := [];
    match DnsRules(outs, d)
    case Err(e) =>
      return Err(e);
    case Ok(dns) =>
      front := dns;
      if d.quarantined {
        var rules: seq<Rule> := [];
        for i := 0 to |d.quarantineAllowlist|
          invariant AllowRules(net, d, i) == Ok(rules)
        {
          match Normalize(net, d.policyID, d.quarantineAllowlist[i])
          case Blank =>
            AllowStops(net, d, i + 1, |d.quarantineAllowlist|);
            return Err(MalformedAllowlist(d.policyID));
          case Bad(e) =>
            AllowStops(net, d, i + 1, |d.quarantineAllowlist|);
            return Err(e);
          case Good(s) =>
            rules := rules + [Generated(AllowTag(d, i), d.clientEmail, Domain(s), "direct")];
        }
        return Ok(acc.(front := acc.front + (dns + rules + [CatchAll(d)])));
      }
      match SelectOutbound(outs, d.action)
      case Err(e) =>
        return Err(e);
      case Ok(outbound) =>
        var found := SupportedDestinations(net, d.policyID, d.destinations);
        match found
        case Err(e) =>
          return Err(e);
        case Ok(dests) =>
          var start := acc.(front := acc.front + dns);
          var now := start;
          for i := 0 to |dests|
            invariant now == AddBack(d, outbound, dests, i, start)
          {
            var tag := PolicyTag(d, i);
            if tag !in now.seen {
              now := now.(back := now.back + [Generated(tag, d.clientEmail, Select(dests[i]), outbound)], seen := now.seen + {tag});
            }
          }
          return Ok(now);
  }

  lemma {:induction false} AllowStops(net: Net, d: Decision, n: nat, m: nat)
    requires n <= m <= |d.quarantineAllowlist| && AllowRules(net, d, n).Err?
    ensures AllowRules(net, d, m) == AllowRules(net, d, n)
    decreases m
  {
    if n < m { AllowStops(net, d, n, m - 1); }
  }

  // ----- the preview

  datatype RulePreview = RulePreview(ruleTag: string, destination: string, user: string, outboundTag: string,
                                     order: nat, policyID: nat, source: string, emitted: bool)

  datatype Shown = Shown(previews: seq<RulePreview>, seen: set<string>)

  function ShowDns(d: Decision, s: Shown): Shown {
    if !d.managedDNS then s else
      s.(previews := s.previews + [RulePreview(DnsTag(d), "dns:53/udp,tcp", d.clientEmail, d.dnsOutboundTag,
                                               |s.previews|, d.policyID, d.winner.source, true)])
  }

  function ShowAllow(d: Decision, n: nat, s: Shown): Shown
    requires n <= |d.quarantineAllowlist|
  {
    if n == 0 then s else
      var s := ShowAllow(d, n - 1, s);
      s.(previews := s.previews + [RulePreview(AllowTag(d, n - 1), d.quarantineAllowlist[n - 1], d.clientEmail, "direct",
                                               |s.previews|, d.policyID, d.winner.source, true)])
  }

  function ShowBack(d: Decision, dests: seq<string>, n: nat, s: Shown): Shown
    requires n <= |dests|
  {
    if n == 0 then s else
      var s := ShowBack(d, dests, n - 1, s);
      var tag := PolicyTag(d, n - 1);
      if tag in s.seen then s else
        Shown(s.previews + [RulePreview(tag, dests[n - 1], d.clientEmail, Wanted(d.action),
                                        |s.previews|, d.policyID, d.winner.source, true)], s.seen + {tag})
  }

  /** A line that explains why nothing is emitted. */
  function ShowNothing(d: Decision, outbound: string, s: Shown): Shown {
    s.(previews := s.previews + [RulePreview("", "", d.clientEmail, outbound, 0, d.policyID, d.winner.source, false)])
  }

  function ShowOne(net: Net, d: Decision, s: Shown): Shown {
    var s := ShowDns(d, s);
    if d.quarantined then
      var s := ShowAllow(d, |d.quarantineAllowlist|, s);
      s.(previews := s.previews + [RulePreview(QuarantineTag(d), "", d.clientEmail, "blocked",
                                               |s.previews|, d.policyID, d.winner.source, true)])
    else
      match Supported(net, d.policyID, d.destinations)
      case Err(_) => ShowNothing(d, "", s)
      case Ok(dests) =>
        if d.action != "allow" && d.action != "deny" then ShowNothing(d, "", s)
        else if dests == [] then ShowNothing(d, Wanted(d.action), s)
        else ShowBack(d, dests, |dests|, s)
  }

  function ShowAll(net: Net, ds: seq<Decision>, n: nat): Shown
    requires n <= |ds|
  {
    if n == 0 then Shown([], {}) else ShowOne(net, ds[n - 1], ShowAll(net, ds, n - 1))
  }

  method Preview(net: Net, ds: seq<Decision>) returns (previews: seq<RulePreview>)
    ensures previews == ShowAll(net, Ordered(ds), |Ordered(ds)|).previews
  {
    hide Normalize, PolicyTag, DnsTag, AllowTag, QuarantineTag, ShowBack, ShowAllow;
    var ordered := Ordered(ds);
    previews := [];
    var seen: set<string> := {};
    for n := 0 to |ordered|
      invariant Shown(previews, seen) == ShowAll(net, ordered, n)
    {
      var s := PreviewDecision(net, ordered[n], Shown(previews, seen));
      previews, seen := s.previews, s.seen;
    }
  }

  /** The body of Preview's loop over decisions. */
  method PreviewDecision(net: Net, d: Decision, before: Shown) returns (s: Shown)
    ensures s == ShowOne(net, d, before)
  {
    hide Normalize, PolicyTag, DnsTag, AllowTag, QuarantineTag;
    s := ShowDns(d, before);
    if d.quarantined {
      ghost var start := s;
      for i := 0 to |d.quarantineAllowlist|
        invariant s == ShowAllow(d, i, start)
      {
        s := s.(previews := s.previews + [RulePreview(AllowTag(d, i), d.quarantineAllowlist[i], d.clientEmail, "direct",
                                                      |s.previews|, d.policyID, d.winner.source, true)]);
      }
      s := s.(previews := s.previews + [RulePreview(QuarantineTag(d), "", d.clientEmail, "blocked",
                                                    |s.previews|, d.policyID, d.winner.source, true)]);
      return;
    }
    var found := SupportedDestinations(net, d.policyID, d.destinations);
    match found
    case Err(_) =>
      s := ShowNothing(d, "", s);
    case Ok(dests) =>
      if d.action != "allow" && d.action != "deny" {
        s := ShowNothing(d, "", s);
        return;
      }
      if |dests| == 0 {
        s := ShowNothing(d, Wanted(d.action), s);
        return;
      }
      ghost var start := s;
      for i := 0 to |dests|
        invariant s == ShowBack(d, dests, i, start)
      {
        var tag := PolicyTag(d, i);
        if tag in s.seen {
          continue;
        }
        s := Shown(s.previews + [RulePreview(tag, dests[i], d.clientEmail, Wanted(d.action),
                                             |s.previews|, d.policyID, d.winner.source, true)], s.seen + {tag});
      }
  }
}
