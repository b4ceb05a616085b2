/** The single-flight catalog cache: its protocol, and the copies that keep it private. */
module Catalog {
  import opened Text

  datatype Server = Server(hostname: string, ip: string)

  /** A Region of the Go package: the fields by value, the server list by reference. */
  datatype Region = Region(id: string, name: string, countryCode: string, geo: bool, portForwarding: bool,
                           wireGuard: array<Server>)

  /** A region by value. */
  datatype RegionValue = RegionValue(id: string, name: string, countryCode: string, geo: bool, portForwarding: bool,
                                     wireGuard: seq<Server>)

  ghost function ValueOf(r: Region): RegionValue
    reads r.wireGuard
  {
    RegionValue(r.id, r.name, r.countryCode, r.geo, r.portForwarding, r.wireGuard[..])
  }

  /** The server lists of some regions. */
  ghost function Lists(rs: seq<Region>): set<object> {
    set r | r in rs :: r.wireGuard as object
  }

  /** All memory a region list hangs on to. */
  ghost function Footprint(regions: array<Region>): set<object>
    reads regions
  {
    {regions as object} + Lists(regions[..])
  }

  ghost function Values(rs: seq<Region>): (v: seq<RegionValue>)
    reads Lists(rs)
    ensures |v| == |rs|
    ensures forall i :: 0 <= i < |rs| ==> rs[i] in rs && v[i] == ValueOf(rs[i])
  {
    if rs == [] then [] else
      assert rs[|rs| - 1] in rs;
      Values(rs[..|rs| - 1]) + [ValueOf(rs[|rs| - 1])]
  }

  /** Regions keep their value while their server lists are left alone. */
  twostate lemma ValuesKept(rs: seq<Region>)
    requires forall i :: 0 <= i < |rs| ==> unchanged(rs[i].wireGuard)
    ensures Values(rs) == old(Values(rs))
  {
    assert Values(rs) == old(Values(rs));
  }

  /** cloneRegions: equal by value and sharing no memory with what existed before. */
  method CloneRegions(regions: array<Region>) returns (result: array<Region>)
    ensures fresh(Footprint(result))
    ensures Values(result[..]) == Values(regions[..])
  {
    var empty := new Server[0];
    result := new Region[regions.Length](_ => Region("", "", "", false, false, empty));
    for i := 0 to regions.Length
      invariant fresh(result)
      invariant forall k :: 0 <= k < result.Length ==> fresh(result[k].wireGuard)
      invariant forall k :: 0 <= k < i ==> ValueOf(result[k]) == ValueOf(regions[k])
    {
      var source := regions[i].wireGuard;
      var servers := new Server[source.Length](k requires 0 <= k < source.Length reads source => source[k]);
      assert servers[..] == source[..];
      result[i] := regions[i].(wireGuard := servers);
    }
  }

  /** New memory is apart from what there was. */
  twostate lemma FreshApart(new mine: set<object>, theirs: set<object>)
    requires fresh(mine)
    ensures mine !! theirs
  {
  }

  /** The same, saying also that another list keeps its memory, its value and its distance. */
  method CloneBeside(regions: array<Region>, ghost others: array<Region>) returns (result: array<Region>)
    ensures fresh(Footprint(result)) && Footprint(result) !! Footprint(others)
    ensures Values(result[..]) == Values(regions[..]) == old(Values(regions[..]))
    ensures others[..] == old(others[..]) && Values(others[..]) == old(Values(others[..]))
  {
    hide Values, ValueOf;
    ghost var given, mine := regions[..], others[..];
    ghost var theirs := Footprint(others);
    result := CloneRegions(regions);
    ValuesKept(given);
    ValuesKept(mine);
    assert regions[..] == given && others[..] == mine;
    FreshApart(Footprint(result), theirs);
  }

  /** Two copies of one list: equal by value, sharing nothing with each other or the original. */
  method TwoCopies(parsed: array<Region>) returns (kept: array<Region>, regions: array<Region>)
    ensures Values(kept[..]) == Values(regions[..]) == Values(parsed[..])
    ensures fresh(Footprint(kept)) && fresh(Footprint(regions)) && Footprint(kept) !! Footprint(regions)
  {
    hide Values, ValueOf, Footprint, Lists;
    kept := CloneRegions(parsed);
    regions := CloneBeside(parsed, kept);
  }

  /** When the cache answers: it holds something, from a verified list, younger than the limit. */
  predicate Fresh(length: nat, verified: bool, fetchedAt: int, now: int, ttl: int) {
    length > 0 && verified && ttl > 0 && 0 <= now - fetchedAt < ttl
  }

  /** The mutable half of a Catalog. `handed` is history: the memory of every list a caller got. */
  class Store {
    var cached: array<Region>
    var schema: string
    var verified: bool
    var fetchedAt: int
    ghost var handed: set<object>

    ghost predicate Valid()
      reads this, cached
    {
      this !in handed && Footprint(cached) !! handed && this !in Footprint(cached)
    }

    ghost function Content(): seq<RegionValue>
      requires Valid()
      reads this, cached, Lists(cached[..])
    {
      Values(cached[..])
    }

    constructor ()
      ensures Valid() && Content() == [] && schema == "" && !verified && handed == {}
    {
      var none := new Region[0];
      cached, schema, verified, fetchedAt, handed := none, "", false, 0, {};
    }

    /** Notes that a caller gets this list. */
    ghost method Hand(regions: array<Region>)
      requires Valid() && this !in Footprint(regions) && Footprint(cached) !! Footprint(regions)
      modifies this`handed
      ensures Valid() && Content() == old(Content()) && handed == old(handed) + Footprint(regions)
      ensures Footprint(regions) == old(Footprint(regions)) && Values(regions[..]) == old(Values(regions[..]))
    {
      hide Values, ValueOf;
      handed := handed + Footprint(regions);
    }

    /** A copy of the cache, for a caller to keep. */
    method Copy() returns (regions: array<Region>)
      requires Valid()
      modifies this`handed
      ensures Valid() && Content() == old(Content())
      ensures Values(regions[..]) == Content()
      ensures handed == old(handed) + Footprint(regions) && fresh(Footprint(regions))
    {
      hide Values, ValueOf, Lists;
      regions := CloneBeside(cached, cached);
      Hand(regions);
    }

    /** The fast path of ListRegions: a copy of the cache while it is fresh. */
    method Lookup(now: int, ttl: int) returns (hit: bool, regions: array<Region>, version: string)
      requires Valid()
      modifies this`handed
      ensures Valid() && Content() == old(Content())
      ensures hit <==> Fresh(cached.Length, verified, fetchedAt, now, ttl)
      ensures hit ==> Values(regions[..]) == Content() && version == schema
      ensures hit ==> handed == old(handed) + Footprint(regions) && fresh(Footprint(regions))
      ensures !hit ==> handed == old(handed)
    {
      hide Values, ValueOf;
      hit := cached.Length > 0 && verified && ttl > 0 && now - fetchedAt >= 0 && now - fetchedAt < ttl;
      if hit {
        regions := Copy();
        version := schema;
      } else {
        regions := new Region[0];
        version := "";
      }
    }

    /** One list becomes the cache, the other goes to a caller. */
    method Install(kept: array<Region>, regions: array<Region>, version: string, now: int)
      requires Valid() && this !in Footprint(kept) && this !in Footprint(regions)
      requires Footprint(kept) !! handed && Footprint(kept) !! Footprint(regions)
      modifies this
      ensures Valid() && cached == kept && schema == version && verified && fetchedAt == now
      ensures Content() == old(Values(kept[..]))
      ensures handed == old(handed) + Footprint(regions)
    {
      hide Values, ValueOf;
      ghost var mine := kept[..];
      cached, schema, verified, fetchedAt := kept, version, true, now;
      handed := handed + Footprint(regions);
      ValuesKept(mine);
      assert cached[..] == mine;
    }

    /** The publishing half of fetchAndPublish: one copy for the cache, another for the caller. */
    method Publish(parsed: array<Region>, version: string, now: int) returns (regions: array<Region>)
      requires Valid()
      modifies this
      ensures Valid() && verified && fetchedAt == now && schema == version
      ensures Content() == Values(regions[..]) == old(Values(parsed[..]))
      ensures handed == old(handed) + Footprint(regions) && fresh(Footprint(regions))
    {
      hide Values, ValueOf;
      ghost var given := parsed[..];
      label Start:
      var kept;
      kept, regions := TwoCopies(parsed);
      ghost var copy := regions[..];
      ValuesKept@Start(given);
      label Copied:
      Install(kept, regions, version, now);
      ValuesKept@Copied(copy);
      assert regions[..] == copy;
    }
  }

  /** Whatever a caller does to a list it got, and to its server lists, the cache keeps its value. */
  method CallerMayScribble(store: Store, regions: array<Region>, i: nat, j: nat, r: Region, s: Server)
    requires store.Valid() && Footprint(regions) <= store.handed
    requires i < regions.Length && j < regions[i].wireGuard.Length
    modifies regions, regions[i].wireGuard
    ensures store.Valid() && store.Content() == old(store.Content())
  {
    assert regions[i] in regions[..];
    regions[i].wireGuard[j] := s;
    regions[i] := r;
  }

  // ----- the protocol: any number of ListRegions calls interleave at the lock

  /** What Source.Fetch returned. */
  datatype Snapshot = Snapshot(payload: string, hint: string, signatureVerified: bool)
  datatype Listing = Listing(regions: seq<RegionValue>, schema: string)

  /** A cached listing, with the snapshot it came from. */
  datatype Entry = Entry(listing: Listing, fetchedAt: int, origin: Snapshot)

  type Call = nat
  type Chan = nat

  datatype Phase =
    | Asking                                   // about to take the lock
    | Waiting(ch: Chan)                        // selecting on another call's channel
    | Fetching(ch: Chan)                       // off-lock, the fetch is under way
    | Published(ch: Chan, entry: Entry)        // the cache is updated, the deferred release is still to come
    | Failing(ch: Chan)                        // no cache update, the deferred release is still to come
    | Answered(entry: Entry, at: int, hit: bool)
    | Failed

  /** `next` is the supply of channels; `owner` is history: the call that made a channel. */
  datatype State = State(phases: map<Call, Phase>, refreshing: Option<Chan>, next: Chan, closed: set<Chan>,
                         cache: Option<Entry>, owner: map<Chan, Call>)

  type Parser = (string, string) -> Option<Listing>

  datatype Step =
    | Enter(c: Call)
    | Look(c: Call, now: int)
    | Wake(c: Call)
    | Cancel(c: Call)
    | FetchFails(c: Call)
    | Fetched(c: Call, snapshot: Snapshot, now: int)
    | Release(c: Call, now: int)

  predicate Enabled(s: State, step: Step) {
    match step
    case Enter(c) => c !in s.phases
    case Look(c, _) => c in s.phases && s.phases[c].Asking?
    case Wake(c) => c in s.phases && s.phases[c].Waiting? && s.phases[c].ch in s.closed
    case Cancel(c) => c in s.phases && s.phases[c].Waiting?
    case FetchFails(c) => c in s.phases && s.phases[c].Fetching?
    case Fetched(c, _, _) => c in s.phases && s.phases[c].Fetching?
    case Release(c, _) => c in s.phases && (s.phases[c].Published? || s.phases[c].Failing?)
  }

  /** What a fetch yields: nothing unless the snapshot was verified and parses. */
  function Accepted(parse: Parser, snapshot: Snapshot, now: int): Option<Entry> {
    if !snapshot.signatureVerified then None
    else match parse(snapshot.payload, snapshot.hint)
      case None => None
      case Some(listing) => Some(Entry(listing, now, snapshot))
  }

  predicate Hits(cache: Option<Entry>, now: int, ttl: int) {
    cache.Some? && Fresh(|cache.value.listing.regions|, true, cache.value.fetchedAt, now, ttl)
  }

  function Next(parse: Parser, ttl: int, s: State, step: Step): State
    requires Enabled(s, step)
  {
    match step
    case Enter(c) => s.(phases := s.phases[c := Asking])
    case Look(c, now) =>
      if Hits(s.cache, now, ttl) then s.(phases := s.phases[c := Answered(s.cache.value, now, true)])
      else if s.refreshing.Some? then s.(phases := s.phases[c := Waiting(s.refreshing.value)])
      else s.(phases := s.phases[c := Fetching(s.next)], refreshing := Some(s.next), next := s.next + 1,
              owner := s.owner[s.next := c])
    case Wake(c) => s.(phases := s.phases[c := Asking])
    case Cancel(c) => s.(phases := s.phases[c := Failed])
    case FetchFails(c) => s.(phases := s.phases[c := Failing(s.phases[c].ch)])
    case Fetched(c, snapshot, now) =>
      (match Accepted(parse, snapshot, now)
       case None => s.(phases := s.phases[c := Failing(s.phases[c].ch)])
       case Some(entry) => s.(phases := s.phases[c := Published(s.phases[c].ch, entry)], cache := Some(entry)))
    case Release(c, now) =>
      var done := if s.phases[c].Published? then Answered(s.phases[c].entry, now, false) else Failed;
      s.(phases := s.phases[c := done], refreshing := None, closed := s.closed + {s.phases[c].ch})
  }

  function Start(): State { State(map[], None, 0, {}, None, map[]) }

  // ----- the invariant

  /** A call that has begun a fetch and not released it. */
  predicate InFlight(phase: Phase) {
    phase.Fetching? || phase.Published? || phase.Failing?
  }

  /** The call that owns the outstanding channel is in flight with it. */
  ghost predicate Refreshed(s: State) {
    s.refreshing.Some? ==>
      && s.refreshing.value < s.next
      && s.refreshing.value in s.owner
      && s.owner[s.refreshing.value] in s.phases
      && InFlight(s.phases[s.owner[s.refreshing.value]])
      && s.phases[s.owner[s.refreshing.value]].ch == s.refreshing.value
  }

  /** Whoever is in flight made the outstanding channel. */
  ghost predicate OneFlight(s: State) {
    forall c :: c in s.phases && InFlight(s.phases[c]) ==>
      s.refreshing == Some(s.phases[c].ch) && s.phases[c].ch in s.owner && s.owner[s.phases[c].ch] == c
  }

  /** Every channel but the outstanding one is closed, and that one is not. */
  ghost predicate Closed(s: State) {
    forall ch: Chan :: ch in s.closed <==> ch < s.next && s.refreshing != Some(ch)
  }

  ghost predicate Waits(s: State) {
    forall c :: c in s.phases && s.phases[c].Waiting? ==> s.phases[c].ch < s.next
  }

  /** A listing that is the parse of a verified snapshot. */
  ghost predicate Genuine(parse: Parser, e: Entry) {
    e.origin.signatureVerified && parse(e.origin.payload, e.origin.hint) == Some(e.listing)
  }

  ghost predicate AllGenuine(parse: Parser, s: State) {
    && (s.cache.Some? ==> Genuine(parse, s.cache.value))
    && (forall c :: c in s.phases && s.phases[c].Published? ==> Genuine(parse, s.phases[c].entry))
    && (forall c :: c in s.phases && s.phases[c].Answered? ==> Genuine(parse, s.phases[c].entry))
  }

  ghost predicate HitsFresh(ttl: int, s: State) {
    forall c :: c in s.phases && s.phases[c].Answered? && s.phases[c].hit ==>
      Hits(Some(s.phases[c].entry), s.phases[c].at, ttl)
  }

  ghost predicate Inv(parse: Parser, ttl: int, s: State) {
    Refreshed(s) && OneFlight(s) && Closed(s) && Waits(s) && AllGenuine(parse, s) && HitsFresh(ttl, s)
  }

  lemma FlightStep(parse: Parser, ttl: int, s: State, step: Step)
    requires Refreshed(s) && OneFlight(s) && Enabled(s, step)
    ensures Refreshed(Next(parse, ttl, s, step)) && OneFlight(Next(parse, ttl, s, step))
  {
  }

  lemma ChannelStep(parse: Parser, ttl: int, s: State, step: Step)
    requires Refreshed(s) && OneFlight(s) && Closed(s) && Waits(s) && Enabled(s, step)
    ensures Closed(Next(parse, ttl, s, step)) && Waits(Next(parse, ttl, s, step))
  {
  }

  lemma GenuineStep(parse: Parser, ttl: int, s: State, step: Step)
    requires AllGenuine(parse, s) && HitsFresh(ttl, s) && Enabled(s, step)
    ensures AllGenuine(parse, Next(parse, ttl, s, step)) && HitsFresh(ttl, Next(parse, ttl, s, step))
  {
  }

  lemma StepKeeps(parse: Parser, ttl: int, s: State, step: Step)
    requires Inv(parse, ttl, s) && Enabled(s, step)
    ensures Inv(parse, ttl, Next(parse, ttl, s, step))
  {
    hide Refreshed, OneFlight, Closed, Waits, AllGenuine, HitsFresh, Next;
    FlightStep(parse, ttl, s, step);
    ChannelStep(parse, ttl, s, step);
    GenuineStep(parse, ttl, s, step);
  }

  ghost predicate Run(parse: Parser, ttl: int, s: State, steps: seq<Step>, t: State)
    decreases |steps|
  {
    if steps == [] then s == t
    else Enabled(s, steps[0]) && Run(parse, ttl, Next(parse, ttl, s, steps[0]), steps[1..], t)
  }

  lemma {:induction false} RunKeeps(parse: Parser, ttl: int, s: State, steps: seq<Step>, t: State)
    requires Inv(parse, ttl, s) && Run(parse, ttl, s, steps, t)
    ensures Inv(parse, ttl, t)
    decreases |steps|
  {
    hide Inv;
    if steps != [] {
      StepKeeps(parse, ttl, s, steps[0]);
      RunKeeps(parse, ttl, Next(parse, ttl, s, steps[0]), steps[1..], t);
    }
  }

  // ----- what it means

  /** In every reachable state: at most one call is in flight, and `refreshing` is set exactly
      while one is. */
  lemma SingleFlight(parse: Parser, ttl: int, steps: seq<Step>, s: State)
    requires Run(parse, ttl, Start(), steps, s)
    ensures forall c, d :: c in s.phases && d in s.phases && InFlight(s.phases[c]) && InFlight(s.phases[d]) ==> c == d
    ensures s.refreshing.Some? <==> exists c :: c in s.phases && InFlight(s.phases[c])
  {
    RunKeeps(parse, ttl, Start(), steps, s);
  }

  /** No waiter is stranded: its channel is closed, or the call that will close it is in flight
      and not itself waiting. Channels close on success and on failure alike. */
  lemma NoStrandedWaiter(parse: Parser, ttl: int, steps: seq<Step>, s: State, c: Call)
    requires Run(parse, ttl, Start(), steps, s) && c in s.phases && s.phases[c].Waiting?
    ensures Enabled(s, Wake(c)) || (exists d :: d in s.phases && InFlight(s.phases[d]) && s.phases[d].ch == s.phases[c].ch)
    ensures s.refreshing == None ==> Enabled(s, Wake(c))
  {
    RunKeeps(parse, ttl, Start(), steps, s);
    assert s.phases[c].ch < s.next;
    if s.refreshing == Some(s.phases[c].ch) {
      assert InFlight(s.phases[s.owner[s.phases[c].ch]]);
    }
  }

  /** The cache and every answer are parses of signature-verified snapshots, and an answer from
      the cache was not empty and was younger than the limit when it was given. */
  lemma OnlyVerified(parse: Parser, ttl: int, steps: seq<Step>, s: State)
    requires Run(parse, ttl, Start(), steps, s)
    ensures s.cache.Some? ==> Genuine(parse, s.cache.value)
    ensures forall c :: c in s.phases && s.phases[c].Answered? ==> Genuine(parse, s.phases[c].entry)
    ensures forall c :: c in s.phases && s.phases[c].Answered? && s.phases[c].hit ==>
      0 <= s.phases[c].at - s.phases[c].entry.fetchedAt < ttl && s.phases[c].entry.listing.regions != []
  {
    RunKeeps(parse, ttl, Start(), steps, s);
  }

  /** A failed or unverified fetch leaves the cache as it was. */
  lemma FailureKeepsCache(parse: Parser, ttl: int, s: State, step: Step)
    requires Enabled(s, step)
    ensures Next(parse, ttl, s, step).cache != s.cache ==>
      step.Fetched? && step.snapshot.signatureVerified && parse(step.snapshot.payload, step.snapshot.hint).Some?
  {
  }

  // ----- how calls end

  lemma {:induction false} RunConcat(parse: Parser, ttl: int, s: State, a: seq<Step>, u: State, b: seq<Step>, t: State)
    requires Run(parse, ttl, s, a, u) && Run(parse, ttl, u, b, t)
    ensures Run(parse, ttl, s, a + b, t)
    decreases |a|
  {
    hide Next, Enabled;
    if a == [] {
      assert a + b == b;
    } else {
      RunConcat(parse, ttl, Next(parse, ttl, s, a[0]), a[1..], u, b, t);
      assert (a + b)[1..] == a[1..] + b;
    }
  }

  lemma RunOne(parse: Parser, ttl: int, s: State, step: Step)
    requires Enabled(s, step)
    ensures Run(parse, ttl, s, [step], Next(parse, ttl, s, step))
  {
    hide Next, Enabled;
    assert [step][1..] == [];
  }

  /** A verified snapshot that parses. */
  ghost predicate Good(parse: Parser, snapshot: Snapshot) {
    snapshot.signatureVerified && parse(snapshot.payload, snapshot.hint).Some?
  }

  ghost function EntryOf(parse: Parser, snapshot: Snapshot, now: int): Entry
    requires Good(parse, snapshot)
  {
    Entry(parse(snapshot.payload, snapshot.hint).value, now, snapshot)
  }

  /** How a call in flight ends, and what is in the cache then: `got` is what its fetch brings, if
      it is still under way; nothing, or a snapshot that is not good, makes it fail. */
  ghost function Ending(parse: Parser, s: State, c: Call, got: Option<Snapshot>, now: int): (Phase, Option<Entry>)
    requires c in s.phases && InFlight(s.phases[c])
  {
    match s.phases[c]
    case Published(_, entry) => (Answered(entry, now, false), s.cache)
    case Fetching(_) =>
      if got.None? || !Good(parse, got.value) then (Failed, s.cache)
      else (Answered(EntryOf(parse, got.value, now), now, false), Some(EntryOf(parse, got.value, now)))
    case _ => (Failed, s.cache)
  }

  /** A call in flight can end, on success and on failure; then nothing is outstanding, its channel is
      closed, and no other call was touched. */
  lemma FlightEnds(parse: Parser, ttl: int, s: State, c: Call, got: Option<Snapshot>, now: int) returns (steps: seq<Step>, t: State)
    requires Inv(parse, ttl, s) && c in s.phases && InFlight(s.phases[c])
    ensures Run(parse, ttl, s, steps, t) && t.refreshing == None && s.phases[c].ch in t.closed
    ensures var (phase, cache) := Ending(parse, s, c, got, now); t.phases == s.phases[c := phase] && t.cache == cache
  {
    if s.phases[c].Fetching? {
      var step := if got.Some? then Fetched(c, got.value, now) else FetchFails(c);
      var u := Next(parse, ttl, s, step);
      RunOne(parse, ttl, s, step);
      RunOne(parse, ttl, u, Release(c, now));
      steps, t := [step] + [Release(c, now)], Next(parse, ttl, u, Release(c, now));
      RunConcat(parse, ttl, s, [step], u, [Release(c, now)], t);
    } else {
      steps, t := [Release(c, now)], Next(parse, ttl, s, Release(c, now));
      RunOne(parse, ttl, s, Release(c, now));
    }
  }

  /** Whoever is in flight can give up; what others see of it is that nothing is outstanding. */
  lemma Clear(parse: Parser, ttl: int, s: State, now: int) returns (steps: seq<Step>, t: State)
    requires Inv(parse, ttl, s)
    ensures Run(parse, ttl, s, steps, t) && Inv(parse, ttl, t) && t.refreshing == None && t.cache == s.cache
    ensures forall c :: c in s.phases && !InFlight(s.phases[c]) ==> c in t.phases && t.phases[c] == s.phases[c]
    ensures forall c :: c in t.phases ==> c in s.phases
  {
    hide AllGenuine, HitsFresh, Next, Enabled;
    if s.refreshing == None {
      steps, t := [], s;
    } else {
      var d := s.owner[s.refreshing.value];
      steps, t := FlightEnds(parse, ttl, s, d, None, now);
      RunKeeps(parse, ttl, s, steps, t);
    }
  }

  /** From every reachable state a new call, one about to ask or one that waits can be answered, with
      what the source brings now or from a fresh cache. */
  lemma CanAnswer(parse: Parser, ttl: int, s: State, c: Call, good: Snapshot, now: int) returns (steps: seq<Step>, t: State)
    requires Inv(parse, ttl, s) && Good(parse, good)
    requires c !in s.phases || s.phases[c].Asking? || s.phases[c].Waiting?
    ensures Run(parse, ttl, s, steps, t) && c in t.phases && t.phases[c].Answered?
    ensures t.phases[c].hit || (t.phases[c].entry == EntryOf(parse, good, now) && t.cache == Some(t.phases[c].entry))
    ensures t.phases[c].hit ==> s.cache.Some? && t.phases[c] == Answered(s.cache.value, now, true) && t.cache == s.cache
  {
    hide AllGenuine, HitsFresh;
    var a, u := Clear(parse, ttl, s, now);
    var step := if c in u.phases then Wake(c) else Enter(c);
    var b: seq<Step> := if c in u.phases && u.phases[c].Asking? then [] else [step];
    var v := if c in u.phases && u.phases[c].Asking? then u else Next(parse, ttl, u, step);
    if b != [] {
      StepKeeps(parse, ttl, u, step);
      RunOne(parse, ttl, u, step);
    }
    RunConcat(parse, ttl, s, a, u, b, v);
    var w := Next(parse, ttl, v, Look(c, now));
    StepKeeps(parse, ttl, v, Look(c, now));
    RunOne(parse, ttl, v, Look(c, now));
    RunConcat(parse, ttl, s, a + b, v, [Look(c, now)], w);
    steps, t := a + b + [Look(c, now)], w;
    if w.phases[c].Fetching? {
      var d, x := FlightEnds(parse, ttl, w, c, Some(good), now);
      RunConcat(parse, ttl, s, steps, w, d, x);
      steps, t := steps + d, x;
    }
  }

  /** A cache that is not empty and younger than the limit answers at once, without a fetch. */
  lemma FreshCacheAnswers(parse: Parser, ttl: int, s: State, c: Call, now: int)
    requires Enabled(s, Look(c, now)) && s.cache.Some? && s.cache.value.listing.regions != []
    requires 0 <= now - s.cache.value.fetchedAt < ttl
    ensures Next(parse, ttl, s, Look(c, now)) == s.(phases := s.phases[c := Answered(s.cache.value, now, true)])
  {
  }

  /** Without one, whoever asks while a fetch is outstanding waits for it and starts none. */
  lemma AskersJoin(parse: Parser, ttl: int, s: State, c: Call, now: int)
    requires Enabled(s, Look(c, now)) && s.refreshing.Some?
    requires s.cache.Some? && s.cache.value.listing.regions != [] ==> !(0 <= now - s.cache.value.fetchedAt < ttl)
    ensures Next(parse, ttl, s, Look(c, now)) == s.(phases := s.phases[c := Waiting(s.refreshing.value)])
  {
  }

  /** One fetch serves both: who waits for it is answered from the cache it filled. */
  lemma SharedFetch(parse: Parser, ttl: int, s: State, d: Call, c: Call, good: Snapshot, now: int) returns (t: State)
    requires Inv(parse, ttl, s) && d in s.phases && s.phases[d].Fetching? && c in s.phases && s.phases[c] == Waiting(s.phases[d].ch)
    requires Good(parse, good) && EntryOf(parse, good, now).listing.regions != [] && ttl > 0
    ensures Run(parse, ttl, s, [Fetched(d, good, now), Release(d, now), Wake(c), Look(c, now)], t)
    ensures d in t.phases && c in t.phases
    ensures t.phases[d] == Answered(EntryOf(parse, good, now), now, false) && t.phases[c] == Answered(EntryOf(parse, good, now), now, true)
  {
    hide Inv;
    var a := Next(parse, ttl, s, Fetched(d, good, now));
    var b := Next(parse, ttl, a, Release(d, now));
    var e := Next(parse, ttl, b, Wake(c));
    t := Next(parse, ttl, e, Look(c, now));
    RunOne(parse, ttl, s, Fetched(d, good, now));
    RunOne(parse, ttl, a, Release(d, now));
    RunOne(parse, ttl, b, Wake(c));
    RunOne(parse, ttl, e, Look(c, now));
    RunConcat(parse, ttl, s, [Fetched(d, good, now)], a, [Release(d, now)], b);
    RunConcat(parse, ttl, s, [Fetched(d, good, now)] + [Release(d, now)], b, [Wake(c)], e);
    RunConcat(parse, ttl, s, [Fetched(d, good, now)] + [Release(d, now)] + [Wake(c)], e, [Look(c, now)], t);
    assert [Fetched(d, good, now)] + [Release(d, now)] + [Wake(c)] + [Look(c, now)] ==
      [Fetched(d, good, now), Release(d, now), Wake(c), Look(c, now)];
  }

  /** A waiter whose caller gives up fails; the fetch it waited for goes on. */
  lemma CancelFails(parse: Parser, ttl: int, s: State, c: Call)
    requires Enabled(s, Cancel(c))
    ensures Next(parse, ttl, s, Cancel(c)) == s.(phases := s.phases[c := Failed])
  {
  }
}
