/** From policy rows to one decision per client: candidate resolution, capabilities, decision. */
module PolicyDecision {
  import opened Text
  import opened Sorting
  import opened StringSets
  import opened PolicyModel
  import opened PolicyPrecedence
  import Sched = PolicySchedule

  const SCOPE_POLICY := "policy"
  const SCOPE_DOMAIN := "domain"
  const SCOPE_DNS := "dns"
  const SCOPE_RELEASE := "quarantine-release"

  /** The `dns` object of a policy: absent, `{}`, or the three entries that are read, with
      false and "" for a missing or differently typed one. */
  datatype Dns = NoDns | EmptyDns | Dns(managed: bool, outboundTag: string, safeSearch: bool)

  datatype Definition = Definition(action: string, destinations: seq<string>, dns: Dns,
                                   quarantine: bool, allowlist: seq<string>, scheduleRef: string)

  /** A stored spec: blank text, malformed JSON or a definition. */
  datatype Spec = BlankSpec | BadSpec | Spec(def: Definition)

  datatype Policy = Policy(id: nat, priority: int, enabled: bool, spec: Spec)

  /** An override's value as each reader decodes it; None where decoding fails. */
  datatype Patch = Patch(action: string, destinations: Option<seq<string>>, domains: seq<string>, dns: Dns,
                         quarantine: Option<bool>, allowlist: Option<seq<string>>)
  datatype Value = Value(patch: Option<Patch>, dnsOnly: Option<Dns>, released: Option<bool>)

  /** One row of the assignment, override or temporary override table, which `source` names. */
  datatype Row = Row(id: nat, policyID: nat, targetType: string, targetRef: string, priority: int, enabled: bool,
                     createdAt: int, scope: string, value: Value, startsAt: int, expiresAt: int)

  datatype ScheduleRow = ScheduleRow(policyID: nat, schedule: Sched.Schedule)

  datatype Db = Db(policies: map<nat, Policy>, schedules: map<nat, ScheduleRow>,
                   assignments: seq<Row>, overrides: seq<Row>, temporaries: seq<Row>)

  datatype Error = NoSuchRow | MalformedSpec(policyID: nat) | BadScheduleRef(policyID: nat)
    | MalformedOverride(policyID: nat) | UnsupportedAction(policyID: nat)

  /** The client a resolution is for. */
  datatype Query = Query(email: string, group: string, at: int)

  // ----- Resolve

  /** strconv.ParseUint(s, 10, 32) with the zero id excluded. */
  function ScheduleID(ref: string): Option<nat> {
    if ref == "" || !AllDigits(ref) then None else
      var n := NatValue(ref);
      if n == 0 || n >= 0x1_0000_0000 then None else Some(n)
  }

  /** policyScheduleActive */
  function ScheduleActive(db: Db, p: Policy, at: int): Result<bool, Error> {
    match p.spec
    case BlankSpec => Ok(true)
    case BadSpec => Err(MalformedSpec(p.id))
    case Spec(def) =>
      var ref := TrimSpace(def.scheduleRef);
      if ref == "" then Ok(true) else
        match ScheduleID(ref)
        case None => Err(BadScheduleRef(p.id))
        case Some(id) =>
          if id !in db.schedules then Ok(false)
          else if db.schedules[id].policyID != p.id then Ok(false)
          else Ok(Sched.ActiveAt(db.schedules[id].schedule, at))
  }

  /** activeAt */
  predicate ActiveAt(now: int, starts: int, expires: int) {
    starts <= now && now < expires
  }

  /** The WHERE clause of the three queries. */
  predicate Selected(source: string, r: Row, q: Query) {
    && r.enabled
    && (source == TEMPORARY ==> r.startsAt <= q.at && r.expiresAt > q.at)
    && ((r.targetType == CLIENT && r.targetRef == q.email) || (r.targetType == GROUP && r.targetRef == q.group))
  }

  /** What one row contributes: nothing, a candidate or an error. Temporary overrides ignore the
      policy's schedule. */
  function Contribute(db: Db, source: string, r: Row, q: Query): Result<Option<Candidate>, Error> {
    if !Selected(source, r, q) then Ok(None)
    else if source == TEMPORARY && !ActiveAt(q.at, r.startsAt, r.expiresAt) then Ok(None)
    else if r.policyID !in db.policies then Err(NoSuchRow)
    else
      var p := db.policies[r.policyID];
      var c := Candidate(source, r.policyID, r.targetType, r.targetRef, r.priority + p.priority, r.createdAt, r.id,
                         if source == ASSIGNMENT then "" else r.scope);
      if !p.enabled then Ok(None)
      else if source == TEMPORARY then Ok(Some(c))
      else match ScheduleActive(db, p, q.at)
        case Err(e) => Err(e)
        case Ok(active) => Ok(if active then Some(c) else None)
  }

  /** The candidates of the first `n` rows. */
  function Collect(db: Db, source: string, rows: seq<Row>, q: Query, n: nat): Result<seq<Candidate>, Error>
    requires n <= |rows|
  {
    if n == 0 then Ok([]) else
      match Collect(db, source, rows, q, n - 1)
      case Err(e) => Err(e)
      case Ok(cs) =>
        match Contribute(db, source, rows[n - 1], q)
        case Err(e) => Err(e)
        case Ok(None) => Ok(cs)
        case Ok(Some(c)) => Ok(cs + [c])
  }

  function Unsorted(db: Db, q: Query): Result<seq<Candidate>, Error> {
    match Collect(db, ASSIGNMENT, db.assignments, q, |db.assignments|)
    case Err(e) => Err(e)
    case Ok(a) =>
      match Collect(db, OVERRIDE, db.overrides, q, |db.overrides|)
      case Err(e) => Err(e)
      case Ok(o) =>
        match Collect(db, TEMPORARY, db.temporaries, q, |db.temporaries|)
        case Err(e) => Err(e)
        case Ok(t) => Ok(a + o + t)
  }

  function Resolved(db: Db, q: Query): Result<seq<Candidate>, Error> {
    match Unsorted(db, q)
    case Err(e) => Err(e)
    case Ok(cs) => Ok(Sort(cs, CandidateLess))
  }

  /** The loop over one table. */
  method CollectRows(db: Db, source: string, rows: seq<Row>, q: Query) returns (r: Result<seq<Candidate>, Error>)
    ensures r == Collect(db, source, rows, q, |rows|)
  {
    hide Contribute;
    var items: seq<Candidate> := [];
    for i := 0 to |rows|
      invariant Collect(db, source, rows, q, i) == Ok(items)
    {
      match Contribute(db, source, rows[i], q)
      case Err(e) =>
        CollectStops(db, source, rows, q, i + 1, |rows|);
        return Err(e);
      case Ok(None) =>
      case Ok(Some(c)) =>
        items := items + [c];
    }
    return Ok(items);
  }

  lemma {:induction false} CollectStops(db: Db, source: string, rows: seq<Row>, q: Query, n: nat, m: nat)
    requires n <= m <= |rows| && Collect(db, source, rows, q, n).Err?
    ensures Collect(db, source, rows, q, m) == Collect(db, source, rows, q, n)
    decreases m
  {
    hide Contribute;
    if n < m { CollectStops(db, source, rows, q, n, m - 1); }
  }

  method Resolve(db: Db, q: Query) returns (r: Result<seq<Candidate>, Error>)
    ensures r == Resolved(db, q)
  {
    hide Contribute;
    var a := CollectRows(db, ASSIGNMENT, db.assignments, q);
    if a.Err? { return a; }
    var o := CollectRows(db, OVERRIDE, db.overrides, q);
    if o.Err? { return o; }
    var t := CollectRows(db, TEMPORARY, db.temporaries, q);
    if t.Err? { return t; }
    var all := a.value + o.value + t.value;
    var items := new Candidate[|all|](i requires 0 <= i < |all| => all[i]);
    assert items[..] == all;
    SortCandidates(items);
    return Ok(items[..]);
  }

  // ----- resolveCapabilities

  function RowFrom(rows: seq<Row>, id: nat, i: nat): Option<Row>
    requires i <= |rows|
    decreases |rows| - i
  {
    if i == |rows| then None else if rows[i].id == id then Some(rows[i]) else RowFrom(rows, id, i + 1)
  }

  /** db.First(&row, candidate.ID) in the candidate's own override table. */
  function OverrideRow(db: Db, c: Candidate): Option<Row> {
    RowFrom(if c.source == OVERRIDE then db.overrides else db.temporaries, c.id, 0)
  }

  /** The candidate's policy, or why it cannot be read. */
  function DefinitionOf(db: Db, c: Candidate): Result<Definition, Error> {
    if c.policyID !in db.policies then Err(NoSuchRow) else
      match db.policies[c.policyID].spec
      case Spec(def) => Ok(def)
      case _ => Err(MalformedSpec(c.policyID))
  }

  predicate IsOverride(c: Candidate) {
    c.source == OVERRIDE || c.source == TEMPORARY
  }

  /** The DNS section that counts for a candidate: a dns override replaces the policy's. */
  function DnsOf(db: Db, c: Candidate, def: Definition): Result<Dns, Error> {
    if c.scope != SCOPE_DNS || !IsOverride(c) then Ok(def.dns) else
      match OverrideRow(db, c)
      case None => Err(NoSuchRow)
      case Some(row) =>
        match row.value.dnsOnly
        case None => Err(MalformedOverride(c.policyID))
        case Some(dns) => Ok(if dns.NoDns? then def.dns else dns)
  }

  /** Whether a candidate is an active, dedicated release of a quarantining policy. */
  function ReleaseOf(db: Db, c: Candidate, def: Definition): Result<bool, Error> {
    if !(c.source == TEMPORARY && c.scope == SCOPE_RELEASE && def.quarantine) then Ok(false) else
      match OverrideRow(db, c)
      case None => Err(NoSuchRow)
      case Some(row) =>
        match row.value.released
        case None => Err(MalformedOverride(c.policyID))
        case Some(b) => Ok(b)
  }

  datatype Caps = Caps(quarantined: bool, released: bool, allow: set<string>,
                       dnsSelected: bool, managed: bool, outboundTag: string, safeSearch: bool)

  const NO_CAPS := Caps(false, false, {}, false, false, "", false)

  function AllowSet(items: seq<string>): set<string> {
    set i | 0 <= i < |items| :: ToLower(TrimSpace(items[i]))
  }

  /** The first candidate with a non-empty DNS section sets the DNS capabilities. */
  function AddDns(caps: Caps, dns: Dns): Caps {
    if caps.dnsSelected || !dns.Dns? then caps else
      caps.(dnsSelected := true,
            managed := caps.managed || dns.managed || dns.safeSearch,
            outboundTag := if TrimSpace(dns.outboundTag) != "" then TrimSpace(dns.outboundTag) else caps.outboundTag,
            safeSearch := caps.safeSearch || dns.safeSearch)
  }

  /** One turn of the loop of resolveCapabilities. */
  function AddCandidate(db: Db, caps: Caps, c: Candidate): Result<Caps, Error> {
    match DefinitionOf(db, c)
    case Err(e) => Err(e)
    case Ok(def) =>
      match DnsOf(db, c, def)
      case Err(e) => Err(e)
      case Ok(dns) =>
        var caps := if def.quarantine then caps.(quarantined := true, allow := caps.allow + AllowSet(def.allowlist)) else caps;
        match ReleaseOf(db, c, def)
        case Err(e) => Err(e)
        case Ok(b) => Ok(AddDns(caps, dns).(released := caps.released || b))
  }

  function CapsOf(db: Db, items: seq<Candidate>, n: nat): Result<Caps, Error>
    requires n <= |items|
  {
    if n == 0 then Ok(NO_CAPS) else
      match CapsOf(db, items, n - 1)
      case Err(e) => Err(e)
      case Ok(caps) => AddCandidate(db, caps, items[n - 1])
  }

  /** The returned capabilities: a release clears the quarantine. */
  function FinalCaps(caps: Caps): Caps {
    caps.(quarantined := caps.quarantined && !caps.released)
  }

  method ResolveCapabilities(db: Db, items: seq<Candidate>) returns (r: Result<Caps, Error>, allowlist: seq<string>)
    ensures CapsOf(db, items, |items|).Err? ==> r == CapsOf(db, items, |items|)
    ensures CapsOf(db, items, |items|).Ok? ==>
      && r == Ok(FinalCaps(CapsOf(db, items, |items|).value))
      && Ascending(allowlist) && forall x :: x in allowlist <==> x in r.value.allow
  {
    hide DefinitionOf, DnsOf, ReleaseOf, AddDns, AllowSet;
    var caps := NO_CAPS;
    allowlist := [];
    for i := 0 to |items|
      invariant CapsOf(db, items, i) == Ok(caps)
    {
      var c := items[i];
      ghost var next := AddCandidate(db, caps, c);
      var def := DefinitionOf(db, c);
      if def.Err? {
        CapsStop(db, items, i + 1, |items|);
        return Err(def.error), [];
      }
      var dns := DnsOf(db, c, def.value);
      if dns.Err? {
        CapsStop(db, items, i + 1, |items|);
        return Err(dns.error), [];
      }
      if def.value.quarantine {
        caps := caps.(quarantined := true, allow := caps.allow + AllowSet(def.value.allowlist));
      }
      AddDnsKeepsRelease(caps, dns.value);
      caps := AddDns(caps, dns.value);
      var b := ReleaseOf(db, c, def.value);
      if b.Err? {
        CapsStop(db, items, i + 1, |items|);
        return Err(b.error), [];
      }
      if b.value {
        caps := caps.(released := true);
      }
      assert next == Ok(caps);
    }
    if caps.released {
      caps := caps.(quarantined := false);
    }
    allowlist := SortedElements(caps.allow);
    return Ok(caps), allowlist;
  }

  lemma AddDnsKeepsRelease(caps: Caps, dns: Dns)
    ensures AddDns(caps, dns).released == caps.released && AddDns(caps, dns).quarantined == caps.quarantined
      && AddDns(caps, dns).allow == caps.allow
  {
  }

  lemma {:induction false} CapsStop(db: Db, items: seq<Candidate>, n: nat, m: nat)
    requires n <= m <= |items| && CapsOf(db, items, n).Err?
    ensures CapsOf(db, items, m) == CapsOf(db, items, n)
    decreases m
  {
    hide AddCandidate;
    if n < m { CapsStop(db, items, n, m - 1); }
  }

  // ----- ResolveDecision

  /** What an override of a scope changes in the winner's policy. */
  function Patched(scope: string, def: Definition, p: Patch): Definition {
    if scope == SCOPE_POLICY then
      def.(action := if p.action != "" then p.action else def.action,
           destinations := if p.destinations.Some? then p.destinations.value else def.destinations,
           quarantine := if p.quarantine.Some? then p.quarantine.value else def.quarantine,
           allowlist := if p.allowlist.Some? then p.allowlist.value else def.allowlist)
    else if scope == SCOPE_DOMAIN then
      def.(destinations := if p.destinations.Some? then p.destinations.value else p.domains)
    else if scope == SCOPE_DNS then def.(dns := if p.dns.NoDns? then def.dns else p.dns)
    else def
  }

  /** The winner's policy, with its override applied if it is one. */
  function WinnerSpec(db: Db, w: Candidate): Result<Definition, Error> {
    match DefinitionOf(db, w)
    case Err(e) => Err(e)
    case Ok(def) =>
      if !IsOverride(w) then Ok(def) else
        match OverrideRow(db, w)
        case None => Err(NoSuchRow)
        case Some(row) =>
          match row.value.patch
          case None => Err(MalformedOverride(w.policyID))
          case Some(p) => Ok(Patched(w.scope, def, p))
  }

  /** `Ok(None)` is the nil decision of a client that no policy concerns. */
  ghost function Decide(db: Db, q: Query): Result<Option<Decision>, Error> {
    match Resolved(db, q)
    case Err(e) => Err(e)
    case Ok(items) =>
      if items == [] then Ok(None) else
        match WinnerSpec(db, items[0])
        case Err(e) => Err(e)
        case Ok(spec) =>
          match CapsOf(db, items, |items|)
          case Err(e) => Err(e)
          case Ok(all) =>
            var caps := FinalCaps(all);
            if spec.action == "" && !caps.quarantined && !caps.managed && !caps.safeSearch then Ok(None) else
              var action := if spec.action == "" then "deny" else spec.action;
              if action != "allow" && action != "deny" then Err(UnsupportedAction(items[0].policyID)) else
                Ok(Some(Decision(q.email, q.group, items[0].policyID, action, spec.destinations, items[0], items,
                                 caps.quarantined, caps.released, Listed(caps.allow),
                                 caps.managed, caps.outboundTag, caps.safeSearch)))
  }

  method ResolveDecision(db: Db, q: Query) returns (r: Result<Option<Decision>, Error>)
    ensures r == Decide(db, q)
  {
    hide Contribute, WinnerSpec, CapsOf;
    var resolved := Resolve(db, q);
    if resolved.Err? { return Err(resolved.error); }
    var items := resolved.value;
    if |items| == 0 { return Ok(None); }
    var winner := items[0];
    var spec := WinnerSpec(db, winner);
    if spec.Err? { return Err(spec.error); }
    var caps, allowlist := ResolveCapabilities(db, items);
    if caps.Err? { return Err(caps.error); }
    var c, action := caps.value, spec.value.action;
    if action == "" && !c.quarantined && !c.managed && !c.safeSearch { return Ok(None); }
    if action == "" {
      action := "deny";
    }
    if action != "allow" && action != "deny" { return Err(UnsupportedAction(winner.policyID)); }
    AscendingUnique(allowlist, Listed(c.allow));
    return Ok(Some(Decision(q.email, q.group, winner.policyID, action, spec.value.destinations, winner, items,
                            c.quarantined, c.released, allowlist, c.managed, c.outboundTag, c.safeSearch)));
  }

  /** The decisions for the first `n` known clients, those without one left out. */
  ghost function DecideAll(db: Db, clients: seq<Query>, n: nat): Result<seq<Decision>, Error>
    requires n <= |clients|
  {
    if n == 0 then Ok([]) else
      match DecideAll(db, clients, n - 1)
      case Err(e) => Err(e)
      case Ok(ds) =>
        match Decide(db, clients[n - 1])
        case Err(e) => Err(e)
        case Ok(None) => Ok(ds)
        case Ok(Some(d)) => Ok(ds + [d])
  }

  /** ResolveDecisions, once the known clients are read and ordered. */
  method ResolveDecisions(db: Db, clients: seq<Query>) returns (r: Result<seq<Decision>, Error>)
    ensures r == DecideAll(db, clients, |clients|)
  {
    hide Decide;
    var out: seq<Decision> := [];
    for i := 0 to |clients|
      invariant DecideAll(db, clients, i) == Ok(out)
    {
      var d := ResolveDecision(db, clients[i]);
      match d
      case Err(e) =>
        DecideStops(db, clients, i + 1, |clients|);
        return Err(e);
      case Ok(None) =>
      case Ok(Some(decision)) =>
        out := out + [decision];
    }
    return Ok(out);
  }

  lemma {:induction false} DecideStops(db: Db, clients: seq<Query>, n: nat, m: nat)
    requires n <= m <= |clients| && DecideAll(db, clients, n).Err?
    ensures DecideAll(db, clients, m) == DecideAll(db, clients, n)
    decreases m
  {
    hide Decide;
    if n < m { DecideStops(db, clients, n, m - 1); }
  }

  // ----- quarantine

  /** The stored definition of the candidate's policy. */
  ghost predicate Stored(db: Db, c: Candidate, def: Definition) {
    c.policyID in db.policies && db.policies[c.policyID].spec == Spec(def)
  }

  ghost predicate FirstRow(rows: seq<Row>, id: nat, r: Row) {
    exists i :: 0 <= i < |rows| && rows[i] == r && r.id == id && forall j :: 0 <= j < i ==> rows[j].id != id
  }

  /** The candidate is an override, and this is its row. */
  ghost predicate OwnRow(db: Db, c: Candidate, r: Row) {
    || (c.source == "override" && FirstRow(db.overrides, c.id, r))
    || (c.source == "temporary" && FirstRow(db.temporaries, c.id, r))
  }

  ghost predicate Quarantines(db: Db, c: Candidate) {
    exists def :: Stored(db, c, def) && def.quarantine
  }

  ghost predicate Releases(db: Db, c: Candidate) {
    && Quarantines(db, c) && c.source == "temporary" && c.scope == "quarantine-release"
    && exists r :: OwnRow(db, c, r) && r.value.released == Some(true)
  }

  ghost predicate Allows(db: Db, c: Candidate, x: string) {
    exists def :: Stored(db, c, def) && def.quarantine && exists i :: 0 <= i < |def.allowlist| && x == ToLower(TrimSpace(def.allowlist[i]))
  }

  /** The DNS section that counts for the candidate is `dns`: that of a dns override, where it
      has one, else its policy's. */
  ghost predicate HasDns(db: Db, c: Candidate, dns: Dns) {
    dns.Dns? && exists def :: Stored(db, c, def) && DnsFrom(db, c, def, dns)
  }

  ghost predicate DnsFrom(db: Db, c: Candidate, def: Definition, dns: Dns) {
    if c.scope == "dns" && c.source in ["override", "temporary"]
    then exists r :: OwnRow(db, c, r) && r.value.dnsOnly.Some? && dns == if r.value.dnsOnly.value.NoDns? then def.dns else r.value.dnsOnly.value
    else dns == def.dns
  }

  lemma {:induction false} RowFromFirst(rows: seq<Row>, id: nat, i: nat)
    requires i <= |rows| && forall j :: 0 <= j < i ==> rows[j].id != id
    ensures forall r :: RowFrom(rows, id, i) == Some(r) <==> FirstRow(rows, id, r)
    decreases |rows| - i
  {
    if i < |rows| && rows[i].id != id { RowFromFirst(rows, id, i + 1); }
  }

  lemma OverrideRowIs(db: Db, c: Candidate)
    requires IsOverride(c)
    ensures forall r :: OverrideRow(db, c) == Some(r) <==> OwnRow(db, c, r)
  {
    hide RowFrom, FirstRow;
    RowFromFirst(db.overrides, c.id, 0);
    RowFromFirst(db.temporaries, c.id, 0);
  }

  lemma DefinitionIs(db: Db, c: Candidate)
    ensures forall def :: DefinitionOf(db, c) == Ok(def) <==> Stored(db, c, def)
  {
  }

  /** What the capability loop reads of one candidate. */
  lemma CandidateMeans(db: Db, c: Candidate)
    requires DefinitionOf(db, c).Ok?
    ensures Quarantines(db, c) <==> DefinitionOf(db, c).value.quarantine
    ensures ReleaseOf(db, c, DefinitionOf(db, c).value).Ok? ==>
      (Releases(db, c) <==> ReleaseOf(db, c, DefinitionOf(db, c).value).value)
    ensures forall x :: Allows(db, c, x) <==> Quarantines(db, c) && x in AllowSet(DefinitionOf(db, c).value.allowlist)
  {
    hide TrimSpace, ToLower, OverrideRow, OwnRow;
    DefinitionIs(db, c);
    var def := DefinitionOf(db, c).value;
    assert Stored(db, c, def);
    if IsOverride(c) { OverrideRowIs(db, c); }
  }

  lemma CandidateDns(db: Db, c: Candidate, dns: Dns)
    requires DefinitionOf(db, c).Ok? && DnsOf(db, c, DefinitionOf(db, c).value).Ok?
    ensures HasDns(db, c, dns) <==> dns.Dns? && DnsOf(db, c, DefinitionOf(db, c).value).value == dns
  {
    hide OverrideRow, OwnRow;
    DefinitionIs(db, c);
    var def := DefinitionOf(db, c).value;
    assert Stored(db, c, def);
    if IsOverride(c) { OverrideRowIs(db, c); }
  }

  ghost predicate AnyDns(db: Db, c: Candidate) {
    exists dns :: HasDns(db, c, dns)
  }

  /** The capability loop sees a quarantine, or a release, exactly when some candidate is one,
      wherever it stands in the precedence order; the allowlist is that of all quarantining
      candidates together. */
  lemma {:induction false} CapsSpec(db: Db, items: seq<Candidate>, n: nat)
    requires n <= |items| && CapsOf(db, items, n).Ok?
    ensures CapsOf(db, items, n).value.quarantined <==> exists i :: 0 <= i < n && Quarantines(db, items[i])
    ensures CapsOf(db, items, n).value.released <==> exists i :: 0 <= i < n && Releases(db, items[i])
    ensures forall x :: x in CapsOf(db, items, n).value.allow <==> exists i :: 0 <= i < n && Allows(db, items[i], x)
    decreases n
  {
    hide DefinitionOf, DnsOf, ReleaseOf, AddDns, AllowSet, Quarantines, Releases, Allows;
    if n > 0 {
      CapsSpec(db, items, n - 1);
      CandidateMeans(db, items[n - 1]);
      var caps := CapsOf(db, items, n - 1).value;
      var def := DefinitionOf(db, items[n - 1]).value;
      var marked := if def.quarantine then caps.(quarantined := true, allow := caps.allow + AllowSet(def.allowlist)) else caps;
      AddDnsKeepsRelease(marked, DnsOf(db, items[n - 1], def).value);
    }
  }

  ghost predicate SetBy(caps: Caps, dns: Dns)
    requires dns.Dns?
  {
    && caps.managed == (dns.managed || dns.safeSearch) && caps.safeSearch == dns.safeSearch
    && caps.outboundTag == TrimSpace(dns.outboundTag)
  }

  /** `i` is the first candidate with a DNS section. */
  ghost predicate FirstDns(db: Db, items: seq<Candidate>, i: nat) {
    i < |items| && AnyDns(db, items[i]) && forall j :: 0 <= j < i ==> !AnyDns(db, items[j])
  }

  ghost predicate NoDnsCaps(caps: Caps) {
    !caps.dnsSelected && !caps.managed && !caps.safeSearch && caps.outboundTag == ""
  }

  /** Without a candidate that has a DNS section there are no DNS capabilities. */
  lemma {:induction false} CapsNoDns(db: Db, items: seq<Candidate>, n: nat)
    requires n <= |items| && CapsOf(db, items, n).Ok? && forall i :: 0 <= i < n ==> !AnyDns(db, items[i])
    ensures NoDnsCaps(CapsOf(db, items, n).value)
    decreases n
  {
    hide AnyDns, AddCandidate;
    if n > 0 {
      CapsNoDns(db, items, n - 1);
      CapsDnsStep(db, CapsOf(db, items, n - 1).value, items[n - 1]);
    }
  }

  /** The DNS capabilities are those of the first candidate with a DNS section. */
  lemma {:induction false} CapsDns(db: Db, items: seq<Candidate>, n: nat, i: nat, dns: Dns)
    requires i < n <= |items| && CapsOf(db, items, n).Ok? && FirstDns(db, items, i) && HasDns(db, items[i], dns)
    ensures CapsOf(db, items, n).value.dnsSelected && SetBy(CapsOf(db, items, n).value, dns)
    decreases n
  {
    hide AnyDns, AddCandidate, SetBy, NoDnsCaps, Stored, DnsFrom;
    CapsDnsStep(db, CapsOf(db, items, n - 1).value, items[n - 1]);
    if i < n - 1 {
      CapsDns(db, items, n - 1, i, dns);
    } else {
      CapsNoDns(db, items, n - 1);
    }
  }

  lemma CapsDnsStep(db: Db, caps: Caps, c: Candidate)
    requires AddCandidate(db, caps, c).Ok?
    ensures var next := AddCandidate(db, caps, c).value;
      && (!AnyDns(db, c) && NoDnsCaps(caps) ==> NoDnsCaps(next))
      && (caps.dnsSelected ==> next.dnsSelected && forall dns: Dns :: dns.Dns? && SetBy(caps, dns) ==> SetBy(next, dns))
      && (NoDnsCaps(caps) ==> forall dns :: HasDns(db, c, dns) ==> next.dnsSelected && SetBy(next, dns))
  {
    hide DefinitionOf, DnsOf, ReleaseOf, AllowSet, TrimSpace, HasDns;
    var dns := DnsOf(db, c, DefinitionOf(db, c).value).value;
    forall d ensures HasDns(db, c, d) <==> d.Dns? && dns == d {
      CandidateDns(db, c, d);
    }
  }

  /** A decision is quarantined exactly when some resolved candidate's policy quarantines and
      none is a dedicated release. Nothing an override's value says, other than a release, is
      consulted: neither an allow nor `quarantine: false` lifts it, and `quarantine: true` on an
      override does not impose it. */
  lemma DecisionQuarantinedIff(db: Db, q: Query)
    requires Decide(db, q).Ok? && Resolved(db, q).value != []
    ensures var items := Resolved(db, q).value;
      (Decide(db, q).value.Some? && Decide(db, q).value.value.quarantined) <==>
        (exists i :: 0 <= i < |items| && Quarantines(db, items[i])) && !exists i :: 0 <= i < |items| && Releases(db, items[i])
    ensures Decide(db, q).value.Some? ==> Decide(db, q).value.value.clientEmail == q.email
  {
    hide Quarantines, Releases, CapsOf, WinnerSpec, Resolved;
    CapsSpec(db, Resolved(db, q).value, |Resolved(db, q).value|);
  }

  lemma {:induction false} DecideAllHas(db: Db, clients: seq<Query>, n: nat, k: nat)
    requires k < n <= |clients| && DecideAll(db, clients, n).Ok?
    ensures Decide(db, clients[k]).Ok?
    ensures Decide(db, clients[k]).value.Some? ==> Decide(db, clients[k]).value.value in DecideAll(db, clients, n).value
    decreases n
  {
    hide Decide;
    if k < n - 1 {
      DecideAllHas(db, clients, n - 1, k);
    } else if Decide(db, clients[k]).value.Some? {
      var ds := DecideAll(db, clients, n).value;
      assert ds[|ds| - 1] == Decide(db, clients[k]).value.value;
    }
  }

  // ----- row order

  lemma {:induction false} CollectConcat(db: Db, source: string, a: seq<Row>, b: seq<Row>, q: Query, n: nat)
    requires n <= |b|
    ensures Collect(db, source, a + b, q, |a| + n) ==
      match Collect(db, source, a, q, |a|)
      case Err(e) => Err(e)
      case Ok(x) =>
        match Collect(db, source, b, q, n)
        case Err(e) => Err(e)
        case Ok(y) => Ok(x + y)
    decreases n
  {
    hide Contribute;
    if n == 0 {
      CollectPrefix(db, source, a, b, q, |a|);
      if Collect(db, source, a, q, |a|).Ok? {
        var x := Collect(db, source, a, q, |a|).value;
        assert x + [] == x;
      }
    } else {
      CollectConcat(db, source, a, b, q, n - 1);
      assert (a + b)[|a| + n - 1] == b[n - 1];
      CollectStopsAt(db, source, a + b, q, |a| + n - 1);
      CollectStopsAt(db, source, b, q, n - 1);
      if Collect(db, source, a, q, |a|).Ok? && Collect(db, source, b, q, n - 1).Ok? {
        var x, y := Collect(db, source, a, q, |a|).value, Collect(db, source, b, q, n - 1).value;
        match Contribute(db, source, b[n - 1], q)
        case Ok(Some(c)) => assert x + (y + [c]) == (x + y) + [c];
        case _ =>
      }
    }
  }

  lemma {:induction false} CollectPrefix(db: Db, source: string, a: seq<Row>, b: seq<Row>, q: Query, n: nat)
    requires n <= |a|
    ensures Collect(db, source, a + b, q, n) == Collect(db, source, a, q, n)
    decreases n
  {
    hide Contribute;
    if n > 0 { CollectPrefix(db, source, a, b, q, n - 1); }
  }

  ghost predicate SameTables(x: Db, y: Db) {
    && x.policies == y.policies && x.schedules == y.schedules
    && multiset(x.assignments) == multiset(y.assignments)
    && multiset(x.overrides) == multiset(y.overrides)
    && multiset(x.temporaries) == multiset(y.temporaries)
  }

  lemma {:induction false} CollectPermuted(x: Db, y: Db, source: string, a: seq<Row>, b: seq<Row>, q: Query)
    requires SameTables(x, y) && multiset(a) == multiset(b) && Collect(x, source, a, q, |a|).Ok?
    ensures Collect(y, source, b, q, |b|).Ok?
    ensures multiset(Collect(x, source, a, q, |a|).value) == multiset(Collect(y, source, b, q, |b|).value)
    decreases |a|
  {
    hide Contribute, SameTables, Collect;
    assert |a| == |multiset(a)| == |multiset(b)| == |b|;
    if a == [] {
      CollectNone(x, source, a, q);
      CollectNone(y, source, b, q);
    } else {
      var n := |a| - 1;
      var r := a[n];
      var u, v := WithoutOne(a, b);
      CollectStopsAt(x, source, a, q, n);
      CollectPrefix(x, source, a[..n], [r], q, n);
      assert a == a[..n] + [r];
      CollectPermuted(x, y, source, a[..n], u + v, q);
      SameContribution(x, y, source, r, q);
      CollectConcat(y, source, u, v, q, |v|);
      CollectConcat(y, source, u + [r], v, q, |v|);
      CollectPrefix(y, source, u, [r], q, |u|);
      assert (u + [r])[|u|] == r;
      CollectStopsAt(y, source, u + [r], q, |u|);
    }
  }

  lemma CollectNone(db: Db, source: string, rows: seq<Row>, q: Query)
    ensures Collect(db, source, rows, q, 0) == Ok([])
  {
  }

  /** The last row of one list, found in the other. */
  lemma WithoutOne(a: seq<Row>, b: seq<Row>) returns (u: seq<Row>, v: seq<Row>)
    requires a != [] && multiset(a) == multiset(b)
    ensures b == u + [a[|a| - 1]] + v
    ensures multiset(a[..|a| - 1]) == multiset(u + v)
  {
    var r := a[|a| - 1];
    assert r in multiset(b);
    var j :| 0 <= j < |b| && b[j] == r;
    u, v := b[..j], b[j + 1..];
    assert b == u + [r] + v;
    assert a == a[..|a| - 1] + [r];
    assert multiset(b) == multiset(u + v) + multiset{r};
    assert multiset(a) == multiset(a[..|a| - 1]) + multiset{r};
    assert multiset(u + v) == multiset(b) - multiset{r};
  }

  lemma CollectStopsAt(db: Db, source: string, rows: seq<Row>, q: Query, n: nat)
    requires n < |rows|
    ensures Collect(db, source, rows, q, n + 1) ==
      match Collect(db, source, rows, q, n)
      case Err(e) => Err(e)
      case Ok(cs) =>
        match Contribute(db, source, rows[n], q)
        case Err(e) => Err(e)
        case Ok(None) => Ok(cs)
        case Ok(Some(c)) => Ok(cs + [c])
  {
    hide Contribute;
  }

  lemma SameContribution(x: Db, y: Db, source: string, r: Row, q: Query)
    requires SameTables(x, y)
    ensures Contribute(x, source, r, q) == Contribute(y, source, r, q)
  {
  }

  /** Primary keys. */
  ghost predicate UniqueRows(rows: seq<Row>) {
    forall i, j :: 0 <= i < j < |rows| ==> rows[i].id != rows[j].id
  }

  ghost predicate FromRow(db: Db, source: string, rows: seq<Row>, q: Query, n: nat, c: Candidate)
    requires n <= |rows|
  {
    exists i :: 0 <= i < n && Contribute(db, source, rows[i], q) == Ok(Some(c))
  }

  lemma {:induction false} CollectFrom(db: Db, source: string, rows: seq<Row>, q: Query, n: nat)
    requires n <= |rows| && Collect(db, source, rows, q, n).Ok?
    ensures forall c :: c in Collect(db, source, rows, q, n).value ==> FromRow(db, source, rows, q, n, c)
    decreases n
  {
    hide Contribute;
    if n > 0 {
      CollectFrom(db, source, rows, q, n - 1);
      var before, after := Collect(db, source, rows, q, n - 1).value, Collect(db, source, rows, q, n).value;
      forall c | c in after ensures FromRow(db, source, rows, q, n, c) {
        if c in before {
          assert FromRow(db, source, rows, q, n - 1, c);
        } else {
          assert Contribute(db, source, rows[n - 1], q) == Ok(Some(c));
        }
      }
    }
  }

  /** The candidates of one table carry its name and distinct ids. */
  lemma TableCandidates(db: Db, source: string, rows: seq<Row>, q: Query)
    requires Collect(db, source, rows, q, |rows|).Ok? && UniqueRows(rows)
    ensures var cs := Collect(db, source, rows, q, |rows|).value;
      && (forall c :: c in cs ==> c.source == source)
      && DistinctIDs(cs)
  {
    hide Collect;
    CollectFrom(db, source, rows, q, |rows|);
    var cs := Collect(db, source, rows, q, |rows|).value;
    forall x, y | x in cs && y in cs && x != y ensures x.id != y.id {
      var i :| 0 <= i < |rows| && Contribute(db, source, rows[i], q) == Ok(Some(x));
      var j :| 0 <= j < |rows| && Contribute(db, source, rows[j], q) == Ok(Some(y));
      assert i != j;
    }
    forall c | c in cs ensures c.source == source {
      var i :| 0 <= i < |rows| && Contribute(db, source, rows[i], q) == Ok(Some(c));
    }
  }

  /** Where row and policy priorities are as the validators demand, so are the sums. */
  lemma BoundedCandidates(db: Db, source: string, rows: seq<Row>, q: Query)
    requires Collect(db, source, rows, q, |rows|).Ok?
    requires forall i :: 0 <= i < |rows| ==> -100000 <= rows[i].priority <= 100000
    requires forall id :: id in db.policies ==> -100000 <= db.policies[id].priority <= 100000
    ensures forall c :: c in Collect(db, source, rows, q, |rows|).value ==> Bounded(c)
  {
    hide Collect;
    CollectFrom(db, source, rows, q, |rows|);
    forall c | c in Collect(db, source, rows, q, |rows|).value ensures Bounded(c) {
      var i :| 0 <= i < |rows| && Contribute(db, source, rows[i], q) == Ok(Some(c));
    }
  }

  /** What Resolve lists before sorting: tables in order, ids distinct within each. */
  lemma UnsortedShape(db: Db, q: Query)
    requires Unsorted(db, q).Ok?
    requires UniqueRows(db.assignments) && UniqueRows(db.overrides) && UniqueRows(db.temporaries)
    ensures TableOrdered(Unsorted(db, q).value) && DistinctIDs(Unsorted(db, q).value)
  {
    hide Collect, UniqueRows, DistinctIDs, TableOrdered;
    TableCandidates(db, ASSIGNMENT, db.assignments, q);
    TableCandidates(db, OVERRIDE, db.overrides, q);
    TableCandidates(db, TEMPORARY, db.temporaries, q);
    ThreeTables(Collect(db, ASSIGNMENT, db.assignments, q, |db.assignments|).value,
                Collect(db, OVERRIDE, db.overrides, q, |db.overrides|).value,
                Collect(db, TEMPORARY, db.temporaries, q, |db.temporaries|).value);
  }

  lemma ThreeTables(a: seq<Candidate>, o: seq<Candidate>, t: seq<Candidate>)
    requires (forall c :: c in a ==> c.source == ASSIGNMENT) && DistinctIDs(a)
    requires (forall c :: c in o ==> c.source == OVERRIDE) && DistinctIDs(o)
    requires (forall c :: c in t ==> c.source == TEMPORARY) && DistinctIDs(t)
    ensures TableOrdered(a + o + t) && DistinctIDs(a + o + t)
  {
    var all := a + o + t;
    forall i | 0 <= i < |all|
      ensures SourceRank(all[i].source) == if i < |a| then 1 else if i < |a| + |o| then 2 else 3
    {
      if i < |a| { assert all[i] in a; } else if i < |a| + |o| { assert all[i] in o; } else { assert all[i] in t; }
    }
    forall c, d | c in all && d in all && c != d && c.source == d.source ensures c.id != d.id {
      assert c in a || c in o || c in t;
      assert d in a || d in o || d in t;
    }
  }

  lemma UnsortedPermuted(x: Db, y: Db, q: Query)
    requires SameTables(x, y) && Unsorted(x, q).Ok?
    ensures Unsorted(y, q).Ok? && multiset(Unsorted(x, q).value) == multiset(Unsorted(y, q).value)
  {
    hide Collect;
    CollectPermuted(x, y, ASSIGNMENT, x.assignments, y.assignments, q);
    CollectPermuted(x, y, OVERRIDE, x.overrides, y.overrides, q);
    CollectPermuted(x, y, TEMPORARY, x.temporaries, y.temporaries, q);
  }

  /** Resolution does not depend on the order in which the database returns its rows, whatever
      the priorities; only which error comes first may. */
  lemma ResolveForgetsRowOrder(x: Db, y: Db, q: Query)
    requires SameTables(x, y)
    requires UniqueRows(x.assignments) && UniqueRows(x.overrides) && UniqueRows(x.temporaries)
    ensures Resolved(x, q).Ok? <==> Resolved(y, q).Ok?
    ensures Resolved(x, q).Ok? ==> Resolved(y, q) == Resolved(x, q)
  {
    hide Unsorted, UniqueRows, DistinctIDs, TableOrdered;
    if Unsorted(y, q).Ok? {
      UnsortedPermuted(y, x, q);
    }
    if Unsorted(x, q).Ok? {
      UnsortedPermuted(x, y, q);
      UnsortedShape(x, q);
      SameKeys(x.assignments, y.assignments);
      SameKeys(x.overrides, y.overrides);
      SameKeys(x.temporaries, y.temporaries);
      UnsortedShape(y, q);
      TablesForgetRowOrder(Unsorted(x, q).value, Unsorted(y, q).value);
    }
  }

  /** Unique keys do not depend on the order either. */
  lemma {:induction false} SameKeys(a: seq<Row>, b: seq<Row>)
    requires UniqueRows(a) && multiset(a) == multiset(b)
    ensures UniqueRows(b)
    decreases |a|
  {
    assert |a| == |multiset(a)| == |multiset(b)| == |b|;
    if a != [] {
      var n: nat := |a| - 1;
      var u: seq<Row>, v: seq<Row> := WithoutOne(a, b);
      var w := u + v;
      SameKeys(a[..n], w);
      forall i | 0 <= i < |w| ensures w[i].id != a[n].id {
        assert w[i] in multiset(w);
        assert w[i] in a[..n];
      }
      forall i, j | 0 <= i < j < |b| ensures b[i].id != b[j].id {
        if i == |u| { assert b[j] == w[j - 1]; }
        else if j == |u| { assert b[i] == w[i]; }
        else { assert b[i] == w[if i < |u| then i else i - 1] && b[j] == w[if j < |u| then j else j - 1]; }
      }
    }
  }
}
