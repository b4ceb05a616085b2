/** What a decision is, told from the rows and stored definitions it comes from. */
module PolicyDecided {
  import opened Text
  import opened Sorting
  import opened StringSets
  import opened PolicyModel
  import opened PolicyPrecedence
  import opened PolicyDecision
  import Sched = PolicySchedule

  // ----- the candidates

  /** The reference names an existing schedule of that policy, and it is on. */
  ghost predicate OnSchedule(db: Db, p: Policy, ref: string, at: int) {
    && AllDigits(ref) && NatValue(ref) in db.schedules
    && db.schedules[NatValue(ref)].policyID == p.id && Sched.ActiveAt(db.schedules[NatValue(ref)].schedule, at)
  }

  ghost predicate GoodRef(ref: string) {
    ref != "" && AllDigits(ref) && 0 < NatValue(ref) < 0x1_0000_0000
  }

  /** No schedule is asked for, or the one that is is on. */
  ghost predicate InSchedule(db: Db, p: Policy, at: int) {
    p.spec.Spec? ==> var ref := TrimSpace(p.spec.def.scheduleRef); ref != "" ==> OnSchedule(db, p, ref, at)
  }

  /** The row is enabled, in its time and about the client or its group. */
  ghost predicate Concerns(source: string, r: Row, q: Query) {
    && r.enabled && (source == "temporary" ==> r.startsAt <= q.at < r.expiresAt)
    && ((r.targetType == "client" && r.targetRef == q.email) || (r.targetType == "group" && r.targetRef == q.group))
  }

  /** Its policy can be read, and, where it matters, its schedule. */
  ghost predicate Readable(db: Db, source: string, r: Row) {
    && r.policyID in db.policies
    && var p := db.policies[r.policyID];
       p.enabled && source != "temporary" ==>
         && !p.spec.BadSpec?
         && (p.spec.Spec? ==> var ref := TrimSpace(p.spec.def.scheduleRef); ref == "" || GoodRef(ref))
  }

  /** `c` is the candidate that the row puts forward for the client. */
  ghost predicate PutsForward(db: Db, source: string, r: Row, q: Query, c: Candidate) {
    && Concerns(source, r, q) && r.policyID in db.policies
    && var p := db.policies[r.policyID];
       && p.enabled && (source != "temporary" ==> InSchedule(db, p, q.at))
       && c == Candidate(source, r.policyID, r.targetType, r.targetRef, r.priority + p.priority, r.createdAt, r.id,
                         if source == "assignment" then "" else r.scope)
  }

  ghost predicate FromTable(db: Db, source: string, rows: seq<Row>, q: Query, c: Candidate) {
    exists i :: 0 <= i < |rows| && PutsForward(db, source, rows[i], q, c)
  }

  ghost predicate TableReadable(db: Db, source: string, rows: seq<Row>, q: Query) {
    forall i :: 0 <= i < |rows| && Concerns(source, rows[i], q) ==> Readable(db, source, rows[i])
  }

  lemma ScheduleMeans(db: Db, p: Policy, at: int)
    ensures var r := ScheduleActive(db, p, at);
      && (r.Ok? <==> !p.spec.BadSpec? && (p.spec.Spec? ==> TrimSpace(p.spec.def.scheduleRef) == "" || GoodRef(TrimSpace(p.spec.def.scheduleRef))))
      && (r.Ok? ==> (r.value <==> InSchedule(db, p, at)))
  {
    hide TrimSpace, NatValue, Sched.ActiveAt;
  }

  lemma ContributeMeans(db: Db, source: string, r: Row, q: Query)
    requires source in ["assignment", "override", "temporary"]
    ensures var got := Contribute(db, source, r, q);
      && (got.Ok? <==> (Concerns(source, r, q) ==> Readable(db, source, r)))
      && (got.Ok? ==> forall c :: got.value == Some(c) <==> PutsForward(db, source, r, q, c))
  {
    hide ScheduleActive, InSchedule, GoodRef, TrimSpace;
    if r.policyID in db.policies { ScheduleMeans(db, db.policies[r.policyID], q.at); }
  }

  lemma {:induction false} CollectMeans(db: Db, source: string, rows: seq<Row>, q: Query, n: nat)
    requires n <= |rows| && source in ["assignment", "override", "temporary"]
    ensures var got := Collect(db, source, rows, q, n);
      && (got.Ok? <==> TableReadable(db, source, rows[..n], q))
      && (got.Ok? ==> forall c :: c in got.value <==> FromTable(db, source, rows[..n], q, c))
    decreases n
  {
    hide Contribute, Concerns, Readable, PutsForward;
    if n > 0 {
      CollectMeans(db, source, rows, q, n - 1);
      ContributeMeans(db, source, rows[n - 1], q);
      assert rows[..n] == rows[..n - 1] + [rows[n - 1]];
      TableGrows(db, source, rows[..n - 1], rows[n - 1], q);
    }
  }

  lemma TableGrows(db: Db, source: string, rows: seq<Row>, r: Row, q: Query)
    ensures TableReadable(db, source, rows + [r], q) <==>
      TableReadable(db, source, rows, q) && (Concerns(source, r, q) ==> Readable(db, source, r))
    ensures forall c :: FromTable(db, source, rows + [r], q, c) <==> FromTable(db, source, rows, q, c) || PutsForward(db, source, r, q, c)
  {
    hide Concerns, Readable, PutsForward;
    var all := rows + [r];
    assert all[|rows|] == r;
    assert forall i :: 0 <= i < |rows| ==> all[i] == rows[i];
  }

  /** Resolution succeeds exactly if every row that concerns the client can be read, and its
      candidates are exactly those the rows of the three tables put forward. */
  lemma ResolvedMeans(db: Db, q: Query)
    ensures Resolved(db, q).Ok? <==>
      && TableReadable(db, "assignment", db.assignments, q) && TableReadable(db, "override", db.overrides, q)
      && TableReadable(db, "temporary", db.temporaries, q)
    ensures Resolved(db, q).Ok? ==> forall c :: c in Resolved(db, q).value <==>
      || FromTable(db, "assignment", db.assignments, q, c) || FromTable(db, "override", db.overrides, q, c)
      || FromTable(db, "temporary", db.temporaries, q, c)
  {
    hide Collect, TableReadable, FromTable, CandidateLess;
    var a, o, t := db.assignments, db.overrides, db.temporaries;
    assert a[..|a|] == a && o[..|o|] == o && t[..|t|] == t;
    CollectMeans(db, "assignment", a, q, |a|);
    CollectMeans(db, "override", o, q, |o|);
    CollectMeans(db, "temporary", t, q, |t|);
    if Unsorted(db, q).Ok? { SortPermutes(Unsorted(db, q).value, CandidateLess); }
  }

  // ----- the decision

  /** What the winner asks for, before the default: its policy's action, or that of an override
      of the whole policy. */
  ghost predicate AsksFor(db: Db, w: Candidate, action: string) {
    exists def :: Stored(db, w, def) &&
      if w.source in ["override", "temporary"]
      then exists r :: OwnRow(db, w, r) && r.value.patch.Some?
             && action == if w.scope == "policy" && r.value.patch.value.action != "" then r.value.patch.value.action else def.action
      else action == def.action
  }

  /** Where it applies: the destinations of its policy, or of an override of the whole policy that
      has some, or of a domain override, which may call them domains. */
  ghost predicate AppliesTo(db: Db, w: Candidate, destinations: seq<string>) {
    exists def :: Stored(db, w, def) &&
      if w.source in ["override", "temporary"]
      then exists r :: OwnRow(db, w, r) && r.value.patch.Some?
             && destinations == PatchedTo(w.scope, r.value.patch.value, def.destinations)
      else destinations == def.destinations
  }

  ghost function PatchedTo(scope: string, p: Patch, destinations: seq<string>): seq<string> {
    if scope == "policy" && p.destinations.Some? then p.destinations.value
    else if scope == "domain" then (if p.destinations.Some? then p.destinations.value else p.domains)
    else destinations
  }

  lemma WinnerMeans(db: Db, w: Candidate)
    requires WinnerSpec(db, w).Ok?
    ensures forall a :: AsksFor(db, w, a) <==> WinnerSpec(db, w).value.action == a
    ensures forall ds :: AppliesTo(db, w, ds) <==> WinnerSpec(db, w).value.destinations == ds
  {
    hide OverrideRow, OwnRow;
    DefinitionIs(db, w);
    assert Stored(db, w, DefinitionOf(db, w).value);
    if IsOverride(w) {
      OverrideRowIs(db, w);
      assert OwnRow(db, w, OverrideRow(db, w).value);
    }
  }

  ghost predicate SomeQuarantine(db: Db, items: seq<Candidate>) {
    exists i :: 0 <= i < |items| && Quarantines(db, items[i])
  }

  ghost predicate SomeRelease(db: Db, items: seq<Candidate>) {
    exists i :: 0 <= i < |items| && Releases(db, items[i])
  }

  /** The DNS settings are those of the first candidate with a DNS section; safe search implies
      managed DNS. */
  ghost predicate DnsOfFirst(db: Db, items: seq<Candidate>, managed: bool, tag: string, safe: bool) {
    if forall i :: 0 <= i < |items| ==> !AnyDns(db, items[i]) then !managed && !safe && tag == ""
    else exists i, dns :: 0 <= i < |items| && HasDns(db, items[i], dns) && FirstDns(db, items, i) && Says(dns, managed, tag, safe)
  }

  ghost predicate Says(dns: Dns, managed: bool, tag: string, safe: bool)
    requires dns.Dns?
  {
    managed == (dns.managed || dns.safeSearch) && safe == dns.safeSearch && tag == TrimSpace(dns.outboundTag)
  }

  lemma CapsDnsFirst(db: Db, items: seq<Candidate>)
    requires CapsOf(db, items, |items|).Ok?
    ensures var caps := CapsOf(db, items, |items|).value; DnsOfFirst(db, items, caps.managed, caps.outboundTag, caps.safeSearch)
  {
    hide CapsOf, HasDns, TrimSpace;
    if forall i :: 0 <= i < |items| ==> !AnyDns(db, items[i]) {
      CapsNoDns(db, items, |items|);
    } else {
      var k :| 0 <= k < |items| && AnyDns(db, items[k]);
      var i := FirstWithDns(db, items, k);
      var dns :| HasDns(db, items[i], dns);
      CapsDns(db, items, |items|, i, dns);
      SectionIs(db, items[i], dns);
      var caps := CapsOf(db, items, |items|).value;
      assert HasDns(db, items[i], dns) && FirstDns(db, items, i) && Says(dns, caps.managed, caps.outboundTag, caps.safeSearch);
    }
  }

  lemma SectionIs(db: Db, c: Candidate, dns: Dns)
    requires HasDns(db, c, dns)
    ensures dns.Dns?
  {
  }

  lemma FirstWithDns(db: Db, items: seq<Candidate>, k: nat) returns (i: nat)
    requires k < |items| && AnyDns(db, items[k])
    ensures i <= k && FirstDns(db, items, i)
    decreases k
  {
    hide AnyDns;
    if j :| 0 <= j < k && AnyDns(db, items[j]) {
      i := FirstWithDns(db, items, j);
    } else {
      i := k;
    }
  }

  /** Every field of a decision. */
  ghost predicate DecisionMeans(db: Db, q: Query, d: Decision) {
    && Resolved(db, q).Ok? && Resolved(db, q).value != []
    && var items := Resolved(db, q).value;
       && d.candidates == items && d.winner == items[0] && d.policyID == items[0].policyID
       && d.clientEmail == q.email && d.groupName == q.group
       && (AsksFor(db, d.winner, d.action) || (AsksFor(db, d.winner, "") && d.action == "deny")) && d.action in ["allow", "deny"]
       && AppliesTo(db, d.winner, d.destinations)
       && (d.quarantined <==> SomeQuarantine(db, items) && !SomeRelease(db, items)) && (d.released <==> SomeRelease(db, items))
       && Ascending(d.quarantineAllowlist)
       && (forall x :: x in d.quarantineAllowlist <==> exists i :: 0 <= i < |items| && Allows(db, items[i], x))
       && DnsOfFirst(db, items, d.managedDNS, d.dnsOutboundTag, d.safeSearch)
  }

  /** A decision's action and destinations are its winner's, its capabilities those of all
      candidates; there is none exactly if nothing applies to the client, or the winner names no
      action and nothing else is to be done for the client either. */
  lemma DecisionSpec(db: Db, q: Query)
    requires Decide(db, q).Ok?
    ensures Decide(db, q).value.Some? ==> DecisionMeans(db, q, Decide(db, q).value.value)
    ensures Decide(db, q).value.None? <==>
      || Resolved(db, q).value == []
      || var items := Resolved(db, q).value;
         && AsksFor(db, items[0], "") && !(SomeQuarantine(db, items) && !SomeRelease(db, items))
         && exists tag :: DnsOfFirst(db, items, false, tag, false)
  {
    hide Resolved, WinnerSpec, CapsOf, AsksFor, AppliesTo, Quarantines, Releases, Allows, DnsOfFirst;
    var items := Resolved(db, q).value;
    if items != [] {
      WinnerMeans(db, items[0]);
      CapsSpec(db, items, |items|);
      CapsDnsFirst(db, items);
      var caps := CapsOf(db, items, |items|).value;
      DnsUnique(db, items, caps.managed, caps.outboundTag, caps.safeSearch);
    }
  }

  /** The candidate's definition can be read, and so can its row where it is a dns override or a
      release. */
  ghost predicate CandidateReadable(db: Db, c: Candidate) {
    exists def :: Stored(db, c, def)
      && (c.scope == "dns" && c.source in ["override", "temporary"] ==> exists r :: OwnRow(db, c, r) && r.value.dnsOnly.Some?)
      && (c.scope == "quarantine-release" && c.source == "temporary" && def.quarantine ==>
            exists r :: OwnRow(db, c, r) && r.value.released.Some?)
  }

  lemma ReadableMeans(db: Db, c: Candidate)
    ensures CandidateReadable(db, c) <==>
      && DefinitionOf(db, c).Ok? && DnsOf(db, c, DefinitionOf(db, c).value).Ok? && ReleaseOf(db, c, DefinitionOf(db, c).value).Ok?
  {
    hide OverrideRow, OwnRow;
    DefinitionIs(db, c);
    if DefinitionOf(db, c).Ok? { assert Stored(db, c, DefinitionOf(db, c).value); }
    if IsOverride(c) {
      OverrideRowIs(db, c);
      if OverrideRow(db, c).Some? { assert OwnRow(db, c, OverrideRow(db, c).value); }
    }
  }

  lemma {:induction false} CapsOkIff(db: Db, items: seq<Candidate>, n: nat)
    requires n <= |items|
    ensures CapsOf(db, items, n).Ok? <==> forall i :: 0 <= i < n ==> CandidateReadable(db, items[i])
    decreases n
  {
    hide CandidateReadable, DefinitionOf, DnsOf, ReleaseOf;
    if n > 0 {
      CapsOkIff(db, items, n - 1);
      ReadableMeans(db, items[n - 1]);
    }
  }

  lemma WinnerOkIff(db: Db, w: Candidate)
    ensures WinnerSpec(db, w).Ok? <==> exists a :: AsksFor(db, w, a)
  {
    hide OverrideRow, OwnRow;
    DefinitionIs(db, w);
    if IsOverride(w) { OverrideRowIs(db, w); }
    if WinnerSpec(db, w).Ok? { WinnerMeans(db, w); assert AsksFor(db, w, WinnerSpec(db, w).value.action); }
  }

  /** A decision is reached, or none needed, exactly if everything that is read can be, and the
      winner asks for an action there is. */
  lemma DecideOkIff(db: Db, q: Query)
    ensures Decide(db, q).Ok? <==>
      && Resolved(db, q).Ok?
      && var items := Resolved(db, q).value;
         items != [] ==>
           && (forall i :: 0 <= i < |items| ==> CandidateReadable(db, items[i]))
           && exists a :: AsksFor(db, items[0], a) && a in ["", "allow", "deny"]
  {
    hide Resolved, WinnerSpec, CapsOf, AsksFor, CandidateReadable;
    if Resolved(db, q).Ok? && Resolved(db, q).value != [] {
      var items := Resolved(db, q).value;
      WinnerOkIff(db, items[0]);
      if WinnerSpec(db, items[0]).Ok? { WinnerMeans(db, items[0]); }
      CapsOkIff(db, items, |items|);
    }
  }

  /** An error of the capability loop names the policy of one of its candidates. */
  lemma {:induction false} CapsErrorNames(db: Db, items: seq<Candidate>, n: nat)
    requires n <= |items| && CapsOf(db, items, n).Err?
    ensures var e := CapsOf(db, items, n).error; e == NoSuchRow || exists i :: 0 <= i < n && items[i].policyID == e.policyID
    decreases n
  {
    hide AddDns, AllowSet, OverrideRow;
    if n > 0 && CapsOf(db, items, n - 1).Err? { CapsErrorNames(db, items, n - 1); }
  }

  /** Once the candidates are known, every error but a missing row names the policy of one of them. */
  lemma ErrorNames(db: Db, q: Query)
    requires Resolved(db, q).Ok? && Decide(db, q).Err?
    ensures var e := Decide(db, q).error; e == NoSuchRow || exists c :: c in Resolved(db, q).value && c.policyID == e.policyID
  {
    hide Resolved, CapsOf, Patched, OverrideRow;
    var items := Resolved(db, q).value;
    assert items[0] in items;
    if CapsOf(db, items, |items|).Err? { CapsErrorNames(db, items, |items|); }
  }

  lemma DnsUnique(db: Db, items: seq<Candidate>, managed: bool, tag: string, safe: bool)
    requires DnsOfFirst(db, items, managed, tag, safe)
    ensures forall m, t, s :: DnsOfFirst(db, items, m, t, s) ==> m == managed && t == tag && s == safe
  {
    hide TrimSpace, DnsFrom, Stored;
    forall i, j | FirstDns(db, items, i) && FirstDns(db, items, j) ensures i == j {
    }
    forall c, a, b | HasDns(db, c, a) && HasDns(db, c, b) ensures a == b {
      OneSection(db, c, a, b);
    }
  }

  lemma OneSection(db: Db, c: Candidate, a: Dns, b: Dns)
    requires HasDns(db, c, a) && HasDns(db, c, b)
    ensures a == b
  {
  }
}
