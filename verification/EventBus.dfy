/** The in-process event bus: bounded channel, one dispatcher, one worker per subscriber. */
module EventBus {
  import opened Text

  type Event = nat

  /** subscriberQueueSize */
  const QUEUE_SIZE: nat := 64

  // ----- subscriber lists

  function RemoveAt<T>(s: seq<T>, k: nat): (r: seq<T>)
    requires k < |s|
    ensures |r| == |s| - 1
    ensures forall i :: 0 <= i < k ==> r[i] == s[i]
    ensures forall i :: k <= i < |r| ==> r[i] == s[i + 1]
  {
    s[..k] + s[k + 1..]
  }

  /** A non-blocking send to a subscriber's queue. */
  function Offer(queue: seq<Event>, e: Event): seq<Event> {
    if |queue| < QUEUE_SIZE then queue + [e] else queue
  }

  // ----- the critical sections

  class Subscriber {
    const id: string
    var queue: seq<Event>
    var quit: bool

    constructor (id: string)
      ensures this.id == id && queue == [] && !quit
    {
      this.id := id;
      queue, quit := [], false;
    }
  }

  class Bus {
    const capacity: nat
    var ch: seq<Event>
    var subs: seq<Subscriber>
    var stopped: bool

    ghost predicate Valid()
      reads this, subs
    {
      && |ch| <= capacity
      && (forall i, j :: 0 <= i < j < |subs| ==> subs[i].id != subs[j].id)
      && (forall i :: 0 <= i < |subs| ==> !subs[i].quit && |subs[i].queue| <= QUEUE_SIZE)
    }

    constructor (capacity: nat)
      ensures Valid() && this.capacity == capacity && ch == [] && subs == [] && !stopped
    {
      this.capacity := capacity;
      ch, subs, stopped := [], [], false;
    }

    function Ids(): (r: seq<string>)
      reads this
      ensures |r| == |subs|
      ensures forall i :: 0 <= i < |subs| ==> r[i] == subs[i].id
    {
      seq(|subs|, i requires 0 <= i < |subs| reads this => subs[i].id)
    }

    method Publish(e: Event) returns (accepted: bool)
      requires Valid()
      modifies this`ch
      ensures Valid()
      ensures accepted <==> |old(ch)| < capacity
      ensures ch == if accepted then old(ch) + [e] else old(ch)
    {
      accepted := |ch| < capacity;
      if accepted {
        ch := ch + [e];
      }
    }

    /** The loop both Subscribe and Unsubscribe start with: the subscriber of that id, if there
        is one, is told to quit and leaves the list. */
    method Drop(id: string)
      requires Valid()
      modifies this`subs, subs`quit
      ensures Valid()
      ensures forall i :: 0 <= i < |subs| ==> subs[i].id != id
      ensures var k := IndexFrom(old(Ids()), id, 0);
        if k == |old(subs)| then subs == old(subs)
        else subs == RemoveAt(old(subs), k) && old(subs)[k].quit
      ensures forall s :: s in old(subs) ==> (s.quit <==> s.id == id)
    {
      var i := 0;
      while i < |subs|
        invariant 0 <= i <= |subs| && subs == old(subs)
        invariant forall j :: 0 <= j < i ==> subs[j].id != id
        invariant IndexFrom(Ids(), id, 0) == IndexFrom(Ids(), id, i)
      {
        if subs[i].id == id {
          subs[i].quit := true;
          subs := RemoveAt(subs, i);
          return;
        }
        i := i + 1;
      }
    }

    method Subscribe(id: string)
      requires Valid()
      modifies this`subs, subs`quit
      ensures Valid()
      ensures stopped ==> subs == old(subs)
      ensures !stopped ==>
        && |subs| > 0 && fresh(subs[|subs| - 1])
        && subs[|subs| - 1].id == id && subs[|subs| - 1].queue == []
        && var k := IndexFrom(old(Ids()), id, 0);
           subs[..|subs| - 1] == if k == |old(subs)| then old(subs) else RemoveAt(old(subs), k)
      ensures !stopped ==> forall s :: s in old(subs) ==> (s.quit <==> s.id == id)
    {
      if stopped {
        return;
      }
      Drop(id);
      var s := new Subscriber(id);
      subs := subs + [s];
    }

    method Unsubscribe(id: string)
      requires Valid()
      modifies this`subs, subs`quit
      ensures Valid()
      ensures var k := IndexFrom(old(Ids()), id, 0);
        subs == if k == |old(subs)| then old(subs) else RemoveAt(old(subs), k)
      ensures forall s :: s in old(subs) ==> (s.quit <==> s.id == id)
    {
      Drop(id);
    }

    /** The fan-out of one event, under the read lock. */
    method FanOut(e: Event)
      requires Valid()
      modifies subs`queue
      ensures Valid() && subs == old(subs)
      ensures forall i :: 0 <= i < |subs| ==>
        subs[i].queue == if |old(subs[i].queue)| < 64 then old(subs[i].queue) + [e] else old(subs[i].queue)
    {
      for i := 0 to |subs|
        invariant Valid() && subs == old(subs)
        invariant forall j :: 0 <= j < i ==> subs[j].queue == Offer(old(subs[j].queue), e)
        invariant forall j :: i <= j < |subs| ==> subs[j].queue == old(subs[j].queue)
      {
        subs[i].queue := Offer(subs[i].queue, e);
      }
    }
  }

  // ----- the protocol

  datatype Worker = Waiting | Handling(e: Event) | Gone

  /** A subscriber over its whole life. `delivered` is what its handler was called with; `since`
      is history: how many accepted events the dispatcher was done with when it subscribed. */
  datatype Sub = Sub(id: string, queue: seq<Event>, quit: bool, worker: Worker, delivered: seq<Event>, since: nat)

  /** The dispatcher: waiting, holding an event before or under the read lock, or gone. `rest`
      are the subscribers still to be offered the event. */
  datatype Dispatcher = Ready | Got(e: Event) | Fanning(e: Event, rest: seq<nat>) | Ended

  /** `all` holds every subscriber ever made, by serial number, `subs` the registered ones.
      `accepted` is history: every event Publish put into the channel, of which the dispatcher
      has taken the first `taken`. `wg` is the wait group. */
  datatype State = State(capacity: nat, ch: seq<Event>, accepted: seq<Event>, taken: nat, dispatcher: Dispatcher,
                         subs: seq<nat>, all: seq<Sub>, stopped: bool, done: bool, wg: int, returned: bool)

  datatype Step =
    | Publish(e: Event)
    | Receive | Lock | OfferNext | Unlock | DispatcherEnds
    | Subscribe(id: string) | Unsubscribe(id: string)
    | Take(s: nat) | Finish(s: nat) | WorkerEnds(s: nat)
    | StopFlag | StopClose | StopReturns

  predicate Locked(s: State) { s.dispatcher.Fanning? }

  predicate Enabled(s: State, step: Step) {
    match step
    case Publish(_) => true
    case Receive => s.dispatcher.Ready? && s.ch != []
    case Lock => s.dispatcher.Got?
    case OfferNext => s.dispatcher.Fanning? && s.dispatcher.rest != [] && s.dispatcher.rest[0] < |s.all|
    case Unlock => s.dispatcher.Fanning? && s.dispatcher.rest == []
    case DispatcherEnds => s.dispatcher.Ready? && s.done
    case Subscribe(_) => !Locked(s) && SubsKnown(s)
    case Unsubscribe(_) => !Locked(s) && SubsKnown(s)
    case Take(k) => k < |s.all| && s.all[k].worker.Waiting? && s.all[k].queue != []
    case Finish(k) => k < |s.all| && s.all[k].worker.Handling?
    case WorkerEnds(k) => k < |s.all| && s.all[k].worker.Waiting? && (s.all[k].quit || s.done)
    case StopFlag => !Locked(s) && !s.stopped
    case StopClose => s.stopped && !s.done
    case StopReturns => s.done && s.wg == 0
  }

  predicate SubsKnown(s: State) {
    forall i :: 0 <= i < |s.subs| ==> s.subs[i] < |s.all|
  }

  function IdsOf(s: State): (r: seq<string>)
    requires SubsKnown(s)
    ensures |r| == |s.subs|
  {
    seq(|s.subs|, i requires 0 <= i < |s.subs| => s.all[s.subs[i]].id)
  }

  /** Takes the subscriber of that id off the list and tells its worker to quit. */
  function Dropped(s: State, id: string): State
    requires SubsKnown(s)
  {
    var k := IndexFrom(IdsOf(s), id, 0);
    if k == |s.subs| then s else
      s.(subs := RemoveAt(s.subs, k), all := s.all[s.subs[k] := s.all[s.subs[k]].(quit := true)])
  }

  /** The accepted events the dispatcher is done with, or has in hand but not under the lock. */
  function Offered(s: State): int {
    if s.dispatcher.Got? then s.taken - 1 else s.taken
  }

  function Next(s: State, step: Step): State
    requires Enabled(s, step)
  {
    match step
    case Publish(e) => if |s.ch| < s.capacity then s.(ch := s.ch + [e], accepted := s.accepted + [e]) else s
    case Receive => s.(ch := s.ch[1..], taken := s.taken + 1, dispatcher := Got(s.ch[0]))
    case Lock => s.(dispatcher := Fanning(s.dispatcher.e, s.subs))
    case OfferNext =>
      var Fanning(e, rest) := s.dispatcher;
      var k := rest[0];
      s.(all := s.all[k := s.all[k].(queue := Offer(s.all[k].queue, e))], dispatcher := Fanning(e, rest[1..]))
    case Unlock => s.(dispatcher := Ready)
    case DispatcherEnds => s.(dispatcher := Ended, wg := s.wg - 1)
    case Subscribe(id) =>
      if s.stopped then s else
        var d := Dropped(s, id);
        var since := if Offered(s) < 0 then 0 else Offered(s);
        d.(subs := d.subs + [|d.all|], all := d.all + [Sub(id, [], false, Waiting, [], since)], wg := d.wg + 1)
    case Unsubscribe(id) => Dropped(s, id)
    case Take(k) =>
      var u := s.all[k];
      s.(all := s.all[k := u.(queue := u.queue[1..], worker := Handling(u.queue[0]), delivered := u.delivered + [u.queue[0]])])
    case Finish(k) => s.(all := s.all[k := s.all[k].(worker := Waiting)])
    case WorkerEnds(k) => s.(all := s.all[k := s.all[k].(worker := Gone)], wg := s.wg - 1)
    case StopFlag => s.(stopped := true)
    case StopClose => s.(done := true)
    case StopReturns => s.(returned := true)
  }

  /** New: the dispatcher is already running. */
  function Start(capacity: nat): State {
    State(capacity, [], [], 0, Ready, [], [], false, false, 1, false)
  }

  // ----- subsequences

  /** `a` is `b` with some elements left out. */
  ghost predicate Subsequence(a: seq<Event>, b: seq<Event>)
    decreases |b|
  {
    if a == [] then true
    else if b == [] then false
    else
      || (a[|a| - 1] == b[|b| - 1] && Subsequence(a[..|a| - 1], b[..|b| - 1]))
      || Subsequence(a, b[..|b| - 1])
  }

  lemma SubsequencePush(a: seq<Event>, b: seq<Event>, e: Event)
    requires Subsequence(a, b)
    ensures Subsequence(a, b + [e]) && Subsequence(a + [e], b + [e])
  {
    assert (b + [e])[..|b|] == b && (a + [e])[..|a|] == a;
  }

  // ----- invariants

  /** How many accepted events subscriber `k` has been offered, or passed over for. */
  ghost function Horizon(s: State, k: nat): int {
    match s.dispatcher
    case Got(_) => s.taken - 1
    case Fanning(_, rest) => if k in rest then s.taken - 1 else s.taken
    case _ => s.taken
  }

  ghost predicate ChannelInv(s: State) {
    && |s.ch| <= s.capacity
    && s.taken + |s.ch| == |s.accepted| && s.accepted[s.taken..] == s.ch
    && (s.dispatcher.Got? || s.dispatcher.Fanning? ==> s.taken > 0 && s.dispatcher.e == s.accepted[s.taken - 1])
  }

  ghost predicate ListInv(s: State) {
    && SubsKnown(s)
    && (forall i, j :: 0 <= i < j < |s.subs| ==> s.all[s.subs[i]].id != s.all[s.subs[j]].id)
    && (forall i :: 0 <= i < |s.subs| ==> !s.all[s.subs[i]].quit)
    && (s.dispatcher.Fanning? ==> |s.dispatcher.rest| <= |s.subs| && s.dispatcher.rest == s.subs[|s.subs| - |s.dispatcher.rest|..])
  }

  /** What subscriber `k` got, or still has queued, is a subsequence of the events accepted
      between its start and its horizon. */
  ghost predicate DeliveryOf(s: State, k: nat)
    requires k < |s.all|
  {
    var u := s.all[k];
    && |u.queue| <= QUEUE_SIZE
    && u.since <= Horizon(s, k) <= |s.accepted|
    && Subsequence(u.delivered + u.queue, s.accepted[u.since..Horizon(s, k)])
    && (u.worker.Handling? ==> u.delivered != [] && u.worker.e == u.delivered[|u.delivered| - 1])
  }

  ghost predicate DeliveryInv(s: State) {
    forall k :: 0 <= k < |s.all| ==> DeliveryOf(s, k)
  }

  ghost function LiveWorkers(all: seq<Sub>): nat {
    if all == [] then 0 else LiveWorkers(all[..|all| - 1]) + if all[|all| - 1].worker.Gone? then 0 else 1
  }

  /** The wait group counts the goroutines that have not ended, and Stop only returns at zero. */
  ghost predicate CountInv(s: State) {
    && s.wg == LiveWorkers(s.all) + (if s.dispatcher.Ended? then 0 else 1)
    && (s.done ==> s.stopped)
    && (s.dispatcher.Ended? ==> s.done)
    && (s.returned ==> s.done && s.wg == 0)
  }

  ghost predicate Inv(s: State) {
    ChannelInv(s) && ListInv(s) && DeliveryInv(s) && CountInv(s)
  }

  lemma StartInv(capacity: nat)
    ensures Inv(Start(capacity))
  {
  }

  lemma ChannelStep(s: State, step: Step)
    requires Inv(s) && Enabled(s, step)
    ensures ChannelInv(Next(s, step))
  {
    hide DeliveryInv, CountInv, IdsOf, Offer;
    var t := Next(s, step);
    if step.Publish? && |s.ch| < s.capacity {
      assert t.accepted[t.taken..] == s.accepted[s.taken..] + [step.e];
    }
    if step.Receive? {
      assert s.accepted[s.taken] == s.ch[0];
      assert t.accepted[t.taken..] == s.accepted[s.taken..][1..];
    }
  }

  /** Every registered subscriber has its own id, hence its own serial number. */
  lemma SerialsDistinct(s: State)
    requires ListInv(s)
    ensures forall i, j :: 0 <= i < j < |s.subs| ==> s.subs[i] != s.subs[j]
  {
  }

  lemma DroppedShape(s: State, id: string)
    requires SubsKnown(s)
    ensures var k := IndexFrom(IdsOf(s), id, 0);
      if k == |s.subs| then Dropped(s, id) == s && forall i :: 0 <= i < |s.subs| ==> s.all[s.subs[i]].id != id
      else s.all[s.subs[k]].id == id && Dropped(s, id) == Without(s, k)
  {
    hide IndexFrom;
    var ids := IdsOf(s);
    assert forall i :: 0 <= i < |s.subs| ==> ids[i] == s.all[s.subs[i]].id;
  }

  function Without(s: State, k: nat): State
    requires SubsKnown(s) && k < |s.subs|
  {
    s.(subs := RemoveAt(s.subs, k), all := s.all[s.subs[k] := s.all[s.subs[k]].(quit := true)])
  }

  lemma WithoutList(s: State, k: nat)
    requires ListInv(s) && !Locked(s) && k < |s.subs|
    ensures ListInv(Without(s, k))
    ensures forall i :: 0 <= i < |s.subs| - 1 ==> Without(s, k).all[Without(s, k).subs[i]].id != s.all[s.subs[k]].id
  {
    var d := Without(s, k);
    SerialsDistinct(s);
    assert forall i :: 0 <= i < |d.subs| ==> d.subs[i] == s.subs[if i < k then i else i + 1];
    assert forall i :: 0 <= i < |d.subs| ==> d.all[d.subs[i]] == s.all[d.subs[i]];
  }

  lemma DroppedList(s: State, id: string)
    requires ListInv(s) && !Locked(s)
    ensures var d := Dropped(s, id);
      && ListInv(d) && !Locked(d) && |d.all| == |s.all|
      && (forall i :: 0 <= i < |d.subs| ==> d.all[d.subs[i]].id != id)
      && (forall k :: 0 <= k < |s.all| ==> d.all[k] == s.all[k] || d.all[k] == s.all[k].(quit := true))
      && d == s.(subs := d.subs, all := d.all)
  {
    hide Dropped, IndexFrom, IdsOf, ListInv;
    InvKnown(s);
    DroppedShape(s, id);
    var k := IndexFrom(IdsOf(s), id, 0);
    if k < |s.subs| { WithoutList(s, k); }
    InvKnown(Dropped(s, id));
  }

  lemma InvKnown(s: State)
    requires ListInv(s)
    ensures SubsKnown(s)
  {
  }

  /** A step that keeps the list, and every id and quit flag, keeps the list invariant. */
  lemma ListKept(s: State, t: State)
    requires ListInv(s) && t.subs == s.subs && |t.all| == |s.all|
    requires forall k :: 0 <= k < |s.all| ==> t.all[k].id == s.all[k].id && t.all[k].quit == s.all[k].quit
    requires t.dispatcher.Fanning? ==> |t.dispatcher.rest| <= |t.subs| && t.dispatcher.rest == t.subs[|t.subs| - |t.dispatcher.rest|..]
    ensures ListInv(t)
  {
  }

  lemma SubscribeList(s: State, id: string)
    requires ListInv(s) && Enabled(s, Subscribe(id))
    ensures ListInv(Next(s, Subscribe(id)))
  {
    hide Offer, IdsOf, Dropped;
    if !s.stopped {
      DroppedList(s, id);
      var d, t := Dropped(s, id), Next(s, Subscribe(id));
      assert forall i :: 0 <= i < |d.subs| ==> t.subs[i] == d.subs[i] && t.all[t.subs[i]] == d.all[d.subs[i]];
    }
  }

  lemma WorkerList(s: State, step: Step)
    requires ListInv(s) && Enabled(s, step) && (step.OfferNext? || step.Take? || step.Finish? || step.WorkerEnds?)
    ensures ListInv(Next(s, step))
  {
    hide Offer, ListInv, IdsOf, Dropped;
    RestSuffix(s);
    ListKept(s, Next(s, step));
  }

  lemma FlagList(s: State, step: Step)
    requires ListInv(s) && Enabled(s, step)
    requires step.Publish? || step.Receive? || step.Unlock? || step.DispatcherEnds? || step.StopFlag? || step.StopClose? || step.StopReturns? || step.Lock?
    ensures ListInv(Next(s, step))
  {
    hide Offer, ListInv, IdsOf, Dropped;
    RestSuffix(s);
    assert s.subs[0..] == s.subs;
    ListKept(s, Next(s, step));
  }

  lemma ListStep(s: State, step: Step)
    requires ListInv(s) && Enabled(s, step)
    ensures ListInv(Next(s, step))
  {
    hide Offer, IdsOf, Dropped, ListInv;
    if step.Subscribe? { SubscribeList(s, step.id); }
    else if step.Unsubscribe? { DroppedList(s, step.id); }
    else if step.OfferNext? || step.Take? || step.Finish? || step.WorkerEnds? { WorkerList(s, step); }
    else { FlagList(s, step); }
  }

  lemma RestSuffix(s: State)
    requires ListInv(s)
    ensures s.dispatcher.Fanning? ==>
      && |s.dispatcher.rest| <= |s.subs| && s.dispatcher.rest == s.subs[|s.subs| - |s.dispatcher.rest|..]
      && (s.dispatcher.rest != [] ==> s.dispatcher.rest[1..] == s.subs[|s.subs| - |s.dispatcher.rest| + 1..])
  {
  }

  /** A delivery record stays good when only the horizon moves past events that were not offered. */
  lemma HorizonGrows(a: seq<Event>, accepted: seq<Event>, since: nat, h: nat)
    requires since <= h < |accepted| && Subsequence(a, accepted[since..h])
    ensures Subsequence(a, accepted[since..h + 1]) && Subsequence(a + [accepted[h]], accepted[since..h + 1])
  {
    SubsequencePush(a, accepted[since..h], accepted[h]);
    assert accepted[since..h + 1] == accepted[since..h] + [accepted[h]];
  }

  /** Steps of the dispatcher, as one subscriber sees them. */
  lemma DispatchDelivery(s: State, step: Step, k: nat)
    requires Inv(s) && Enabled(s, step) && k < |s.all|
    requires step.Receive? || step.Lock? || step.Unlock? || step.DispatcherEnds?
    ensures DeliveryOf(Next(s, step), k)
  {
    hide CountInv, IdsOf, Subsequence;
    assert DeliveryOf(s, k);
    if step.Lock? && k !in s.subs {
      var u := s.all[k];
      HorizonGrows(u.delivered + u.queue, s.accepted, u.since, s.taken - 1);
    }
  }

  lemma OfferDelivery(s: State, k: nat)
    requires Inv(s) && Enabled(s, OfferNext) && k < |s.all|
    ensures DeliveryOf(Next(s, OfferNext), k)
  {
    hide CountInv, IdsOf, Subsequence, ListInv;
    assert DeliveryOf(s, k);
    DistinctRest(s);
    var e, rest, u := s.dispatcher.e, s.dispatcher.rest, s.all[k];
    if k == rest[0] {
      HorizonGrows(u.delivered + u.queue, s.accepted, u.since, s.taken - 1);
      assert u.delivered + (u.queue + [e]) == (u.delivered + u.queue) + [e];
    } else {
      InTail(rest, k);
    }
  }

  lemma InTail(rest: seq<nat>, k: nat)
    requires rest != [] && k != rest[0]
    ensures k in rest <==> k in rest[1..]
  {
    assert rest == [rest[0]] + rest[1..];
  }

  lemma DistinctRest(s: State)
    requires ListInv(s) && s.dispatcher.Fanning? && s.dispatcher.rest != []
    ensures s.dispatcher.rest[0] !in s.dispatcher.rest[1..]
  {
    var rest, n := s.dispatcher.rest, |s.subs| - |s.dispatcher.rest|;
    forall j | 0 < j < |rest| ensures rest[j] != rest[0] {
      assert rest[0] == s.subs[n] && rest[j] == s.subs[n + j];
    }
  }

  lemma WorkerDelivery(s: State, step: Step, k: nat)
    requires Inv(s) && Enabled(s, step) && k < |s.all|
    requires step.Take? || step.Finish? || step.WorkerEnds?
    ensures DeliveryOf(Next(s, step), k)
  {
    hide CountInv, IdsOf, Subsequence;
    assert DeliveryOf(s, k);
    var u := s.all[k];
    if step == Take(k) {
      assert (u.delivered + [u.queue[0]]) + u.queue[1..] == u.delivered + u.queue;
    }
  }

  lemma PublishDelivery(s: State, e: Event, k: nat)
    requires Inv(s) && k < |s.all|
    ensures DeliveryOf(Next(s, Publish(e)), k)
  {
    hide CountInv, IdsOf, Subsequence;
    assert DeliveryOf(s, k);
    var u, h := s.all[k], Horizon(s, k);
    assert (s.accepted + [e])[u.since..h] == s.accepted[u.since..h];
  }

  lemma ListDelivery(s: State, step: Step, k: nat)
    requires Inv(s) && Enabled(s, step) && k < |Next(s, step).all|
    requires step.Subscribe? || step.Unsubscribe?
    ensures DeliveryOf(Next(s, step), k)
  {
    hide CountInv, IdsOf, Dropped;
    DroppedList(s, step.id);
    var t := Next(s, step);
    if k < |s.all| {
      assert DeliveryOf(s, k);
      assert t.all[k].(quit := false) == s.all[k].(quit := false);
    } else {
      assert t.accepted[t.all[k].since..t.all[k].since] == [];
    }
  }

  lemma DeliveryStep(s: State, step: Step)
    requires Inv(s) && Enabled(s, step)
    ensures DeliveryInv(Next(s, step))
  {
    hide DeliveryOf, Inv, ListInv, ChannelInv, CountInv, Offer, IdsOf, Dropped;
    var t := Next(s, step);
    forall k | 0 <= k < |t.all| ensures DeliveryOf(t, k) {
      if step.Subscribe? || step.Unsubscribe? {
        ListDelivery(s, step, k);
      } else {
        assert |t.all| == |s.all|;
        if step.Publish? { PublishDelivery(s, step.e, k); }
        else if step.OfferNext? { OfferDelivery(s, k); }
        else if step.Take? || step.Finish? || step.WorkerEnds? { WorkerDelivery(s, step, k); }
        else if step.StopFlag? || step.StopClose? || step.StopReturns? { StopDelivery(s, step, k); }
        else { DispatchDelivery(s, step, k); }
      }
    }
  }

  lemma StopDelivery(s: State, step: Step, k: nat)
    requires Inv(s) && Enabled(s, step) && k < |s.all| && (step.StopFlag? || step.StopClose? || step.StopReturns?)
    ensures DeliveryOf(Next(s, step), k)
  {
    hide CountInv, Subsequence;
    assert DeliveryOf(s, k);
  }

  /** Changing one subscriber changes the count by whether its worker ended. */
  lemma {:induction false} LiveUpdate(all: seq<Sub>, k: nat, u: Sub)
    requires k < |all|
    ensures LiveWorkers(all[k := u]) ==
      LiveWorkers(all) + (if all[k].worker.Gone? then 1 else 0) - (if u.worker.Gone? then 1 else 0)
    decreases |all|
  {
    var n := |all| - 1;
    if k < n {
      LiveUpdate(all[..n], k, u);
      assert all[k := u][..n] == all[..n][k := u];
    } else {
      assert all[k := u][..n] == all[..n];
    }
  }

  lemma LivePush(all: seq<Sub>, u: Sub)
    ensures LiveWorkers(all + [u]) == LiveWorkers(all) + if u.worker.Gone? then 0 else 1
  {
    assert (all + [u])[..|all|] == all;
  }

  lemma {:induction false} LiveSome(all: seq<Sub>)
    ensures LiveWorkers(all) == 0 <==> forall k :: 0 <= k < |all| ==> all[k].worker.Gone?
    decreases |all|
  {
    if all != [] { LiveSome(all[..|all| - 1]); }
  }

  lemma DroppedCount(s: State, id: string)
    requires SubsKnown(s)
    ensures LiveWorkers(Dropped(s, id).all) == LiveWorkers(s.all)
  {
    hide LiveWorkers;
    var k := IndexFrom(IdsOf(s), id, 0);
    if k < |s.subs| {
      LiveUpdate(s.all, s.subs[k], s.all[s.subs[k]].(quit := true));
    }
  }

  /** The wait group stays exact; once Stop has returned nothing is left to change it. */
  lemma CountStep(s: State, step: Step)
    requires Inv(s) && Enabled(s, step)
    ensures CountInv(Next(s, step))
  {
    hide LiveWorkers, DeliveryInv, ChannelInv, Dropped, IdsOf, Offer;
    var t := Next(s, step);
    LiveSome(s.all);
    match step
    case Subscribe(id) =>
      if !s.stopped {
        DroppedCount(s, id);
        DroppedList(s, id);
        LivePush(Dropped(s, id).all, t.all[|t.all| - 1]);
      }
    case Unsubscribe(id) => DroppedCount(s, id); DroppedList(s, id);
    case OfferNext =>
      var k := s.dispatcher.rest[0];
      LiveUpdate(s.all, k, t.all[k]);
    case Take(k) => LiveUpdate(s.all, k, t.all[k]);
    case Finish(k) => LiveUpdate(s.all, k, t.all[k]);
    case WorkerEnds(k) => LiveUpdate(s.all, k, t.all[k]);
    case _ =>
  }

  lemma StepKeeps(s: State, step: Step)
    requires Inv(s) && Enabled(s, step)
    ensures Inv(Next(s, step))
  {
    hide ChannelInv, ListInv, DeliveryInv, CountInv, Next, Enabled;
    ChannelStep(s, step);
    ListStep(s, step);
    DeliveryStep(s, step);
    CountStep(s, step);
  }

  ghost predicate Run(s: State, steps: seq<Step>, t: State)
    decreases |steps|
  {
    if steps == [] then s == t else Enabled(s, steps[0]) && Run(Next(s, steps[0]), steps[1..], t)
  }

  lemma {:induction false} RunKeeps(s: State, steps: seq<Step>, t: State)
    requires Inv(s) && Run(s, steps, t)
    ensures Inv(t)
    decreases |steps|
  {
    hide Inv, Next, Enabled;
    if steps != [] {
      StepKeeps(s, steps[0]);
      RunKeeps(Next(s, steps[0]), steps[1..], t);
    }
  }

  // ----- which events a subscriber misses

  /** The number, in the order of acceptance, of the event that subscriber `k` misses in a step:
      its queue is full at its turn, or it is not registered when the fan-out begins. */
  ghost function MissedIn(s: State, step: Step, k: nat): set<int>
    requires Enabled(s, step)
  {
    if step.OfferNext? && s.dispatcher.rest[0] == k && |s.all[k].queue| == 64 then {s.taken - 1}
    else if step.Lock? && k !in s.subs then {s.taken - 1}
    else {}
  }

  ghost function MissedOver(s: State, steps: seq<Step>, k: nat): set<int>
    requires CanRun(s, steps)
    decreases |steps|
  {
    if steps == [] then {} else MissedIn(s, steps[0], k) + MissedOver(Next(s, steps[0]), steps[1..], k)
  }

  ghost predicate CanRun(s: State, steps: seq<Step>)
    decreases |steps|
  {
    steps != [] ==> Enabled(s, steps[0]) && CanRun(Next(s, steps[0]), steps[1..])
  }

  /** The accepted events from `lo` to `hi`, without the missed ones. */
  ghost function Undropped(accepted: seq<Event>, lo: nat, hi: nat, missed: set<int>): seq<Event>
    requires hi <= |accepted|
    decreases hi
  {
    if hi <= lo then [] else
      Undropped(accepted, lo, hi - 1, missed) + if hi - 1 in missed then [] else [accepted[hi - 1]]
  }

  lemma {:induction false} SameUpTo(a: seq<Event>, b: seq<Event>, lo: nat, hi: nat, missed: set<int>, more: set<int>)
    requires hi <= |a| && hi <= |b| && a[..hi] == b[..hi] && forall i :: i in more ==> i >= hi
    ensures Undropped(a, lo, hi, missed) == Undropped(b, lo, hi, missed + more)
    decreases hi
  {
    if hi > lo {
      assert a[hi - 1] == a[..hi][hi - 1] && b[hi - 1] == b[..hi][hi - 1];
      assert a[..hi - 1] == a[..hi][..hi - 1] && b[..hi - 1] == b[..hi][..hi - 1];
      SameUpTo(a, b, lo, hi - 1, missed, more);
    }
  }

  /** What subscriber `k` got or has queued is all it was offered, less the missed events. */
  ghost predicate Exact(s: State, k: nat, missed: set<int>) {
    && (forall i :: i in missed ==> i < Horizon(s, k))
    && (k < |s.all| ==>
          && 0 <= Horizon(s, k) <= |s.accepted|
          && s.all[k].delivered + s.all[k].queue == Undropped(s.accepted, s.all[k].since, Horizon(s, k), missed))
  }

  /** A step that leaves the record and the horizon of `k` alone. */
  lemma ExactKept(s: State, t: State, k: nat, missed: set<int>)
    requires Exact(s, k, missed) && k < |s.all| && k < |t.all| && s.accepted <= t.accepted
    requires t.all[k].delivered + t.all[k].queue == s.all[k].delivered + s.all[k].queue && t.all[k].since == s.all[k].since
    requires Horizon(t, k) == Horizon(s, k)
    ensures Exact(t, k, missed)
  {
    SameUpTo(s.accepted, t.accepted, s.all[k].since, Horizon(s, k), missed, {});
    assert missed + {} == missed;
  }

  lemma ExactLock(s: State, k: nat, missed: set<int>)
    requires Inv(s) && Enabled(s, Lock) && k < |s.all| && Exact(s, k, missed)
    ensures Exact(Next(s, Lock), k, missed + MissedIn(s, Lock, k))
  {
    hide DeliveryInv, CountInv, ListInv;
    SinceBelow(s, k);
    SameUpTo(s.accepted, s.accepted, s.all[k].since, s.taken - 1, missed, MissedIn(s, Lock, k));
  }

  lemma SinceBelow(s: State, k: nat)
    requires Inv(s) && k < |s.all|
    ensures s.all[k].since <= Horizon(s, k) <= |s.accepted| && |s.all[k].queue| <= 64
  {
    hide CountInv, ListInv, Subsequence;
    assert DeliveryOf(s, k);
  }

  lemma ExactOffer(s: State, k: nat, missed: set<int>)
    requires Inv(s) && Enabled(s, OfferNext) && k < |s.all| && Exact(s, k, missed)
    ensures Exact(Next(s, OfferNext), k, missed + MissedIn(s, OfferNext, k))
  {
    hide DeliveryInv, CountInv, ListInv, Subsequence;
    SinceBelow(s, k);
    DistinctRest(s);
    var e, rest, u := s.dispatcher.e, s.dispatcher.rest, s.all[k];
    if k == rest[0] {
      SameUpTo(s.accepted, s.accepted, u.since, s.taken - 1, missed, MissedIn(s, OfferNext, k));
      assert u.delivered + (u.queue + [e]) == (u.delivered + u.queue) + [e];
    } else {
      InTail(rest, k);
      ExactKept(s, Next(s, OfferNext), k, missed);
      assert missed + {} == missed;
    }
  }

  lemma ExactTake(s: State, j: nat, k: nat, missed: set<int>)
    requires Enabled(s, Take(j)) && k < |s.all| && Exact(s, k, missed)
    ensures Exact(Next(s, Take(j)), k, missed)
  {
    var u := s.all[k];
    if k == j {
      assert (u.delivered + [u.queue[0]]) + u.queue[1..] == u.delivered + u.queue;
    }
    ExactKept(s, Next(s, Take(j)), k, missed);
  }

  lemma ExactList(s: State, step: Step, k: nat, missed: set<int>)
    requires Inv(s) && Enabled(s, step) && (step.Subscribe? || step.Unsubscribe?) && Exact(s, k, missed)
    ensures Exact(Next(s, step), k, missed)
  {
    hide DeliveryInv, CountInv, ListInv, IdsOf, Dropped;
    DroppedList(s, step.id);
    var t := Next(s, step);
    if k < |s.all| {
      assert t.all[k].(quit := false) == s.all[k].(quit := false);
      ExactKept(s, t, k, missed);
    }
  }

  lemma ExactStep(s: State, step: Step, k: nat, missed: set<int>)
    requires Inv(s) && Enabled(s, step) && Exact(s, k, missed)
    ensures Exact(Next(s, step), k, missed + MissedIn(s, step, k))
  {
    hide DeliveryInv, CountInv, ListInv, IdsOf, Dropped, Exact, Offer;
    assert missed + {} == missed;
    if step.Subscribe? || step.Unsubscribe? {
      ExactList(s, step, k, missed);
    } else if k < |s.all| {
      if step.Lock? { ExactLock(s, k, missed); }
      else if step.OfferNext? { ExactOffer(s, k, missed); }
      else if step.Take? { ExactTake(s, step.s, k, missed); }
      else { ExactKept(s, Next(s, step), k, missed); }
    } else {
      NotThere(s, step, k, missed);
    }
  }

  /** Before its subscription nothing is said of `k` but that the misses are past. */
  lemma NotThere(s: State, step: Step, k: nat, missed: set<int>)
    requires Inv(s) && Enabled(s, step) && !step.Subscribe? && !step.Unsubscribe? && Exact(s, k, missed) && k >= |s.all|
    ensures Exact(Next(s, step), k, missed + MissedIn(s, step, k))
  {
  }

  lemma {:induction false} ExactRun(s: State, steps: seq<Step>, t: State, k: nat, missed: set<int>)
    requires Inv(s) && Run(s, steps, t) && Exact(s, k, missed)
    ensures CanRun(s, steps) && Exact(t, k, missed + MissedOver(s, steps, k))
    decreases |steps|
  {
    hide Inv, Exact, MissedIn, Next, Enabled;
    if steps == [] {
      assert missed + {} == missed;
    } else {
      var u := Next(s, steps[0]);
      ExactStep(s, steps[0], k, missed);
      StepKeeps(s, steps[0]);
      ExactRun(u, steps[1..], t, k, missed + MissedIn(s, steps[0], k));
      var a, b := MissedIn(s, steps[0], k), MissedOver(u, steps[1..], k);
      assert missed + a + b == missed + (a + b);
    }
  }

  /** Over every run, what a subscriber's handler was called with, and then its queue, is exactly
      the accepted events it was offered since it subscribed, in order, less those whose fan-out
      found its queue full or began without it. */
  lemma MissesOnlyWhenFull(capacity: nat, steps: seq<Step>, s: State, k: nat)
    requires Run(Start(capacity), steps, s) && k < |s.all|
    ensures CanRun(Start(capacity), steps) && s.all[k].since <= Horizon(s, k) <= |s.accepted|
    ensures s.all[k].delivered + s.all[k].queue ==
      Undropped(s.accepted, s.all[k].since, Horizon(s, k), MissedOver(Start(capacity), steps, k))
  {
    hide Inv;
    StartInv(capacity);
    RunKeeps(Start(capacity), steps, s);
    SinceBelow(s, k);
    ExactRun(Start(capacity), steps, s, k, {});
    assert {} + MissedOver(Start(capacity), steps, k) == MissedOver(Start(capacity), steps, k);
  }

  // ----- what it means

  lemma {:induction false} SubsequencePrefix(a: seq<Event>, b: seq<Event>, c: seq<Event>)
    requires Subsequence(a + b, c)
    ensures Subsequence(a, c)
    decreases |c|, |b|
  {
    if b == [] {
      assert a + b == a;
    } else if a != [] {
      var ab := a + b;
      assert ab[..|ab| - 1] == a + b[..|b| - 1];
      if Subsequence(ab, c[..|c| - 1]) {
        SubsequencePrefix(a, b, c[..|c| - 1]);
      } else {
        SubsequencePrefix(a, b[..|b| - 1], c[..|c| - 1]);
      }
    }
  }

  /** Every interleaving of publishers, dispatcher, workers, subscriptions and stop: what a
      handler was called with is a subsequence, in order and without repetition, of the events
      the bus accepted from the point its subscription looks back to; no queue exceeds its
      bound; and no two registered subscribers share an id. */
  lemma DeliveredInOrder(capacity: nat, steps: seq<Step>, s: State)
    requires Run(Start(capacity), steps, s)
    ensures |s.ch| <= capacity
    ensures forall k :: 0 <= k < |s.all| ==>
      && |s.all[k].queue| <= QUEUE_SIZE
      && s.all[k].since <= |s.accepted|
      && Subsequence(s.all[k].delivered, s.accepted[s.all[k].since..])
    ensures SubsKnown(s) && forall i, j :: 0 <= i < j < |s.subs| ==> s.all[s.subs[i]].id != s.all[s.subs[j]].id
  {
    hide Subsequence, Run;
    StartInv(capacity);
    RunKeeps(Start(capacity), steps, s);
    CapacityKept(Start(capacity), steps, s);
    forall k | 0 <= k < |s.all|
      ensures |s.all[k].queue| <= QUEUE_SIZE && s.all[k].since <= |s.accepted|
      ensures Subsequence(s.all[k].delivered, s.accepted[s.all[k].since..])
    {
      DeliveredFrom(s, k);
    }
  }

  lemma DeliveredFrom(s: State, k: nat)
    requires DeliveryInv(s) && k < |s.all|
    ensures |s.all[k].queue| <= QUEUE_SIZE && s.all[k].since <= |s.accepted|
    ensures Subsequence(s.all[k].delivered, s.accepted[s.all[k].since..])
  {
    hide Subsequence;
    assert DeliveryOf(s, k);
    var u, h := s.all[k], Horizon(s, k);
    SubsequencePrefix(u.delivered, u.queue, s.accepted[u.since..h]);
    SubsequenceMore(u.delivered, s.accepted[u.since..h], s.accepted[h..]);
    assert s.accepted[u.since..h] + s.accepted[h..] == s.accepted[u.since..];
  }

  lemma {:induction false} CapacityKept(s: State, steps: seq<Step>, t: State)
    requires Run(s, steps, t)
    ensures t.capacity == s.capacity
    decreases |steps|
  {
    if steps != [] { CapacityKept(Next(s, steps[0]), steps[1..], t); }
  }

  // ----- what a new subscriber gets

  /** Nothing that handler `k` was called with was accepted before the first `from` events were. */
  ghost predicate Confined(s: State, k: nat, from: nat) {
    k < |s.all| && from <= |s.accepted| && Subsequence(s.all[k].delivered, s.accepted[from..])
  }

  /** Whatever happens after the subscription, its handler only ever gets later events. */
  ghost predicate OnlyLater(s: State, id: string)
    requires Enabled(s, Subscribe(id))
  {
    forall steps, t :: Run(Next(s, Subscribe(id)), steps, t) ==> Confined(t, |s.all|, |s.accepted|)
  }

  /** Subscribers are never forgotten or moved, and accepted events neither. */
  ghost predicate Grown(s: State, t: State) {
    && |s.all| <= |t.all| && (forall k :: 0 <= k < |s.all| ==> t.all[k].since == s.all[k].since)
    && s.accepted <= t.accepted
  }

  lemma StepGrows(s: State, step: Step)
    requires Enabled(s, step) && ListInv(s)
    ensures Grown(s, Next(s, step))
  {
    hide ListInv, Dropped, IdsOf, Offer;
    if step.Subscribe? || step.Unsubscribe? { DroppedList(s, step.id); }
  }

  lemma {:induction false} RunGrows(s: State, steps: seq<Step>, t: State)
    requires Inv(s) && Run(s, steps, t)
    ensures Grown(s, t)
    decreases |steps|
  {
    hide Next, Enabled, ChannelInv, ListInv, DeliveryInv, CountInv;
    if steps != [] {
      var u := Next(s, steps[0]);
      assert Run(s, [steps[0]], u) by { assert [steps[0]][1..] == []; }
      StepGrows(s, steps[0]);
      RunKeeps(s, [steps[0]], u);
      RunGrows(u, steps[1..], t);
    }
  }

  lemma {:induction false} SubsequenceMore(a: seq<Event>, b: seq<Event>, c: seq<Event>)
    requires Subsequence(a, b)
    ensures Subsequence(a, b + c)
    decreases |c|
  {
    if c == [] {
      assert b + c == b;
    } else {
      SubsequenceMore(a, b, c[..|c| - 1]);
      assert (b + c)[..|b + c| - 1] == b + c[..|c| - 1];
    }
  }

  /** Where the new subscription starts in the accepted events. */
  lemma Newcomer(s: State, id: string)
    requires Inv(s) && Enabled(s, Subscribe(id)) && !s.stopped
    ensures var t := Next(s, Subscribe(id)); var k := |s.all|;
      && |t.all| == k + 1 && t.subs != [] && t.subs[|t.subs| - 1] == k
      && t.all[k].queue == [] && t.all[k].delivered == [] && t.all[k].worker.Waiting? && t.all[k].id == id
      && t.ch == s.ch && t.dispatcher == s.dispatcher && t.accepted == s.accepted && t.stopped == s.stopped
      && (s.ch == [] && !s.dispatcher.Got? ==> t.all[k].since == |s.accepted|)
  {
    hide DeliveryInv, CountInv, Dropped, IdsOf;
    DroppedList(s, id);
  }

  /** Without a backlog, only later events come. */
  lemma LaterOnly(s: State, id: string, steps: seq<Step>, t: State)
    requires Inv(s) && Enabled(s, Subscribe(id)) && !s.stopped && s.ch == [] && !s.dispatcher.Got?
    requires Run(Next(s, Subscribe(id)), steps, t)
    ensures Confined(t, |s.all|, |s.accepted|)
  {
    hide ChannelInv, ListInv, CountInv, Next, Enabled, Subsequence, Run;
    var u, k := Next(s, Subscribe(id)), |s.all|;
    Newcomer(s, id);
    RunOne(s, Subscribe(id));
    RunKeeps(s, [Subscribe(id)], u);
    RunKeeps(u, steps, t);
    RunGrows(u, steps, t);
    DeliveredFrom(t, k);
  }

  lemma RunOne(s: State, step: Step)
    requires Enabled(s, step)
    ensures Run(s, [step], Next(s, step))
  {
    assert [step][1..] == [];
  }

  /** The rest of a fan-out, when subscriber `k` comes last. */
  lemma {:induction false} OfferAll(s: State, k: nat) returns (steps: seq<Step>, t: State)
    requires s.dispatcher.Fanning? && k < |s.all| && s.all[k].queue == [] && s.all[k].worker.Waiting?
    requires var rest := s.dispatcher.rest; rest != [] && rest[|rest| - 1] == k
    requires forall i :: 0 <= i < |s.dispatcher.rest| ==> s.dispatcher.rest[i] < |s.all|
    requires forall i :: 0 <= i < |s.dispatcher.rest| - 1 ==> s.dispatcher.rest[i] != k
    ensures Run(s, steps, t) && t.accepted == s.accepted && |t.all| == |s.all|
    ensures t.all[k] == s.all[k].(queue := [s.dispatcher.e])
    decreases |s.dispatcher.rest|
  {
    hide Run;
    var u := Next(s, OfferNext);
    if |s.dispatcher.rest| == 1 {
      RunOne(s, OfferNext);
      steps, t := [OfferNext], u;
    } else {
      steps, t := OfferAll(u, k);
      RunCons(s, OfferNext, steps, t);
      steps := [OfferNext] + steps;
    }
  }

  /** From the event in the dispatcher's hand to the last subscriber's handler. */
  lemma HandedOn(s: State, k: nat) returns (steps: seq<Step>, t: State)
    requires ListInv(s) && s.dispatcher.Got? && k < |s.all| && s.subs != [] && s.subs[|s.subs| - 1] == k
    requires s.all[k].queue == [] && s.all[k].worker.Waiting? && s.all[k].delivered == []
    ensures Run(s, steps, t) && t.accepted == s.accepted && |t.all| == |s.all|
    ensures t.all[k].delivered == [s.dispatcher.e]
  {
    hide Run;
    SerialsDistinct(s);
    var u := Next(s, Lock);
    var offers, v := OfferAll(u, k);
    var w := Next(v, Take(k));
    RunOne(v, Take(k));
    RunAppend(u, offers, v, [Take(k)], w);
    RunCons(s, Lock, offers + [Take(k)], w);
    steps, t := [Lock] + (offers + [Take(k)]), w;
  }

  lemma {:induction false} RunAppend(s: State, a: seq<Step>, t: State, b: seq<Step>, u: State)
    requires Run(s, a, t) && Run(t, b, u)
    ensures Run(s, a + b, u)
    decreases |a|
  {
    hide Next, Enabled;
    if a == [] {
      assert a + b == b;
    } else {
      RunAppend(Next(s, a[0]), a[1..], t, b, u);
      assert (a + b)[1..] == a[1..] + b;
    }
  }

  /** With a backlog, an event accepted before the subscription can reach its handler. */
  lemma EarlierToo(s: State, id: string) returns (steps: seq<Step>, t: State, e: Event)
    requires Inv(s) && Enabled(s, Subscribe(id)) && !s.stopped && (s.ch != [] || s.dispatcher.Got?)
    ensures Run(Next(s, Subscribe(id)), steps, t) && t.accepted == s.accepted && e in s.accepted
    ensures |s.all| < |t.all| && t.all[|s.all|].delivered == [e]
  {
    hide Run, DeliveryInv, Dropped, IdsOf, LiveWorkers;
    var u, k := Next(s, Subscribe(id)), |s.all|;
    Newcomer(s, id);
    ListStep(s, Subscribe(id));
    if s.dispatcher.Got? {
      e := s.dispatcher.e;
      steps, t := HandedOn(u, k);
    } else {
      e := s.ch[0];
      assert e == s.accepted[s.taken];
      ListStep(u, Receive);
      steps, t := HandedOn(Next(u, Receive), k);
      RunCons(u, Receive, steps, t);
      steps := [Receive] + steps;
    }
  }

  /** Over all continuations of every reachable state, the handler of a new subscription is
      confined to events accepted after it exactly when no event is buffered and the dispatcher
      has none in hand. */
  lemma LooksBackIff(capacity: nat, steps: seq<Step>, s: State, id: string)
    requires Run(Start(capacity), steps, s) && Enabled(s, Subscribe(id)) && !s.stopped
    ensures OnlyLater(s, id) <==> s.ch == [] && !s.dispatcher.Got?
  {
    hide Run, Inv, Next, Enabled, Subsequence;
    StartInv(capacity);
    RunKeeps(Start(capacity), steps, s);
    if s.ch == [] && !s.dispatcher.Got? {
      forall more, t | Run(Next(s, Subscribe(id)), more, t) ensures Confined(t, |s.all|, |s.accepted|) {
        LaterOnly(s, id, more, t);
      }
    } else {
      var more, t, e := EarlierToo(s, id);
      NotNothing(e);
      assert t.accepted[|s.accepted|..] == [];
      assert !Confined(t, |s.all|, |s.accepted|);
    }
  }

  lemma NotNothing(e: Event)
    ensures !Subsequence([e], [])
  {
  }

  lemma RunCons(s: State, step: Step, steps: seq<Step>, t: State)
    requires Enabled(s, step) && Run(Next(s, step), steps, t)
    ensures Run(s, [step] + steps, t)
  {
    assert ([step] + steps)[1..] == steps;
  }

  /** Such an event does reach the new handler. */
  lemma OldEventDelivered(e: Event) returns (s: State)
    ensures Run(Start(1), [Publish(e)] + ([Subscribe("a")] + ([Receive] + ([Lock] + ([OfferNext] + ([Take(0)] + []))))), s)
    ensures |s.all| == 1 && s.all[0].id == "a" && s.all[0].delivered == [e]
  {
    hide Run;
    var s1 := State(1, [e], [e], 0, Ready, [], [], false, false, 1, false);
    var u := Sub("a", [], false, Waiting, [], 0);
    var s2 := s1.(subs := [0], all := [u], wg := 2);
    var s3 := s2.(ch := [], taken := 1, dispatcher := Got(e));
    var s4 := s3.(dispatcher := Fanning(e, [0]));
    var s5 := s4.(dispatcher := Fanning(e, []), all := [u.(queue := [e])]);
    var s6 := s5.(all := [u.(worker := Handling(e), delivered := [e])]);
    assert Next(Start(1), Publish(e)) == s1;
    assert Next(s1, Subscribe("a")) == s2;
    assert Next(s2, Receive) == s3;
    assert Next(s3, Lock) == s4;
    assert [u][0 := u.(queue := [e])] == [u.(queue := [e])] && [0][1..] == [] && Offer([], e) == [e];
    assert Next(s4, OfferNext) == s5;
    assert Next(s5, Take(0)) == s6;
    RunNone(s6);
    RunCons(s5, Take(0), [], s6);
    RunCons(s4, OfferNext, [Take(0)] + [], s6);
    RunCons(s3, Lock, [OfferNext] + ([Take(0)] + []), s6);
    RunCons(s2, Receive, [Lock] + ([OfferNext] + ([Take(0)] + [])), s6);
    RunCons(s1, Subscribe("a"), [Receive] + ([Lock] + ([OfferNext] + ([Take(0)] + []))), s6);
    RunCons(Start(1), Publish(e), [Subscribe("a")] + ([Receive] + ([Lock] + ([OfferNext] + ([Take(0)] + [])))), s6);
    s := s6;
  }

  lemma RunNone(s: State)
    ensures Run(s, [], s)
  {
  }

  /** Once Stop has returned, every goroutine has ended: no handler runs, and none ever will. */
  lemma StopIsFinal(capacity: nat, steps: seq<Step>, s: State, step: Step)
    requires Run(Start(capacity), steps, s) && s.returned && Enabled(s, step)
    ensures s.dispatcher.Ended? && forall k :: 0 <= k < |s.all| ==> s.all[k].worker.Gone?
    ensures |Next(s, step).all| == |s.all|
    ensures forall k :: 0 <= k < |s.all| ==> Next(s, step).all[k].delivered == s.all[k].delivered && Next(s, step).all[k].worker.Gone?
  {
    hide DeliveryInv, ChannelInv, LiveWorkers, IdsOf, Dropped;
    StartInv(capacity);
    RunKeeps(Start(capacity), steps, s);
    LiveSome(s.all);
    if step.Unsubscribe? { DroppedList(s, step.id); }
  }

  // ----- progress

  /** While a fan-out holds the read lock, neither the registrations nor the stop flag change. */
  lemma LockFreezes(s: State, step: Step)
    requires Locked(s) && Enabled(s, step)
    ensures Next(s, step).subs == s.subs && Next(s, step).stopped == s.stopped
  {
  }

  /** What one subscriber has of its events is not touched by a run in which it misses nothing. */
  lemma {:induction false} MissedConcat(s: State, a: seq<Step>, t: State, b: seq<Step>, u: State, k: nat)
    requires Run(s, a, t) && Run(t, b, u)
    ensures Run(s, a + b, u) && CanRun(s, a + b) && CanRun(s, a) && CanRun(t, b)
    ensures MissedOver(s, a + b, k) == MissedOver(s, a, k) + MissedOver(t, b, k)
    decreases |a|, |b|
  {
    hide Next, Enabled, MissedIn;
    if a == [] {
      assert a + b == b;
      if b != [] { MissedConcat(Next(t, b[0]), [], Next(t, b[0]), b[1..], u, k); }
    } else {
      MissedConcat(Next(s, a[0]), a[1..], t, b, u, k);
      assert (a + b)[1..] == a[1..] + b;
    }
  }

  /** One step before a run. */
  lemma StepThen(s: State, step: Step, steps: seq<Step>, t: State, k: nat)
    requires Enabled(s, step) && Run(Next(s, step), steps, t)
    ensures Run(s, [step] + steps, t) && CanRun(s, [step] + steps) && CanRun(Next(s, step), steps)
    ensures MissedOver(s, [step] + steps, k) == MissedIn(s, step, k) + MissedOver(Next(s, step), steps, k)
  {
    hide Next, Enabled, MissedIn;
    RunNone(Next(s, step));
    RunOne(s, step);
    MissedConcat(s, [step], Next(s, step), steps, t, k);
    assert [step][1..] == [] && MissedOver(Next(s, step), [], k) == {};
    assert MissedOver(s, [step], k) == MissedIn(s, step, k) + {};
  }

  /** The worker of `k` can call its handler with everything in its queue, while nothing else moves. */
  lemma {:induction false} WorkOff(s: State, k: nat) returns (steps: seq<Step>, t: State)
    requires Inv(s) && k < |s.all| && !s.all[k].worker.Gone?
    ensures Run(s, steps, t) && Inv(t) && CanRun(s, steps) && MissedOver(s, steps, k) == {}
    ensures t == s.(all := t.all) && |t.all| == |s.all| && t.all[k].queue == [] && t.all[k].worker.Waiting?
    decreases |s.all[k].queue|, s.all[k].worker.Handling?
  {
    hide Inv, Offer, IdsOf, Dropped;
    if s.all[k].worker.Waiting? && s.all[k].queue == [] {
      steps, t := [], s;
    } else {
      var step := if s.all[k].worker.Handling? then Finish(k) else Take(k);
      StepKeeps(s, step);
      steps, t := WorkOff(Next(s, step), k);
      StepThen(s, step, steps, t, k);
      steps := [step] + steps;
    }
  }

  /** How far the dispatcher is from having handed on everything. */
  ghost function Phase(d: Dispatcher): nat {
    match d
    case Got(_) => 2
    case Fanning(_, _) => 1
    case _ => 0
  }

  ghost function Pending(d: Dispatcher): nat {
    if d.Fanning? then |d.rest| else 0
  }

  /** From every reachable state of a bus that was not stopped, everything accepted so far can
      still reach a registered subscriber whose worker runs, without a miss. */
  lemma {:induction false} CanDeliverAll(s: State, k: nat) returns (steps: seq<Step>, t: State)
    requires Inv(s) && k in s.subs && k < |s.all| && !s.all[k].worker.Gone? && !s.done
    ensures Run(s, steps, t) && Inv(t) && CanRun(s, steps) && MissedOver(s, steps, k) == {}
    ensures k < |t.all| && t.all[k].queue == [] && t.all[k].since == s.all[k].since
    ensures t.accepted == s.accepted && t.ch == [] && Horizon(t, k) == |t.accepted|
    decreases |s.ch|, Phase(s.dispatcher), Pending(s.dispatcher)
  {
    hide Inv, Offer, IdsOf, Dropped, Enabled, Next, MissedIn;
    var a, u := WorkOff(s, k);
    WorkKeepsSince(s, a, u, k);
    if u.ch == [] && u.dispatcher.Ready? {
      steps, t := a, u;
      AllTaken(t);
    } else {
      var step := DispatcherStep(u);
      CanStep(u);
      StepKeeps(u, step);
      DispatcherMoves(u, k);
      var b;
      b, t := CanDeliverAll(Next(u, step), k);
      StepThen(u, step, b, t, k);
      MissedConcat(s, a, u, [step] + b, t, k);
      steps := a + ([step] + b);
    }
  }

  lemma AllTaken(t: State)
    requires Inv(t) && t.ch == [] && t.dispatcher.Ready?
    ensures forall k :: Horizon(t, k) == |t.accepted|
  {
    hide DeliveryInv, ListInv, CountInv;
  }

  /** What the dispatcher does next. */
  ghost function DispatcherStep(s: State): Step {
    match s.dispatcher
    case Got(_) => Lock
    case Fanning(_, rest) => if rest == [] then Unlock else OfferNext
    case _ => Receive
  }

  lemma CanStep(s: State)
    requires Inv(s) && !s.done && !(s.ch == [] && s.dispatcher.Ready?)
    ensures Enabled(s, DispatcherStep(s))
  {
    hide DeliveryInv, ChannelInv, LiveWorkers;
    RestSuffix(s);
    if s.dispatcher.Fanning? && s.dispatcher.rest != [] {
      assert s.dispatcher.rest[0] == s.subs[|s.subs| - |s.dispatcher.rest|];
    }
  }

  lemma DispatcherMoves(s: State, k: nat)
    requires Inv(s) && Enabled(s, DispatcherStep(s)) && k in s.subs && k < |s.all| && s.all[k].queue == []
    ensures var t := Next(s, DispatcherStep(s));
      && MissedIn(s, DispatcherStep(s), k) == {}
      && k in t.subs && |t.all| == |s.all| && t.done == s.done && t.accepted == s.accepted
      && t.all[k].worker == s.all[k].worker && t.all[k].since == s.all[k].since
      && (|t.ch| < |s.ch| || (t.ch == s.ch && (Phase(t.dispatcher) < Phase(s.dispatcher)
            || (Phase(t.dispatcher) == Phase(s.dispatcher) && Pending(t.dispatcher) < Pending(s.dispatcher)))))
  {
    hide Inv, Offer, IdsOf, Dropped;
  }

  lemma {:induction false} WorkKeepsSince(s: State, steps: seq<Step>, t: State, k: nat)
    requires Run(s, steps, t) && k < |s.all|
    ensures k < |t.all| && t.all[k].since == s.all[k].since
    decreases |steps|
  {
    hide Inv, Offer, Next, Enabled;
    if steps != [] {
      SinceStays(s, steps[0], k);
      WorkKeepsSince(Next(s, steps[0]), steps[1..], t, k);
    }
  }

  lemma SinceStays(s: State, step: Step, k: nat)
    requires Enabled(s, step) && k < |s.all|
    ensures k < |Next(s, step).all| && Next(s, step).all[k].since == s.all[k].since
  {
    hide Offer, IdsOf;
  }

  /** A worker that was told to quit can end, bus stopped or not. */
  lemma QuitEnds(s: State, k: nat) returns (steps: seq<Step>, t: State)
    requires Inv(s) && k < |s.all| && (s.all[k].quit || s.done) && !s.all[k].worker.Gone?
    ensures Run(s, steps, t) && Inv(t)
    ensures t == s.(all := t.all, wg := t.wg) && |t.all| == |s.all| && t.all[k].worker.Gone?
    ensures forall j :: 0 <= j < |s.all| && j != k ==> t.all[j] == s.all[j]
    decreases s.all[k].worker.Handling?
  {
    hide Inv, Offer, IdsOf, Dropped;
    var step := if s.all[k].worker.Handling? then Finish(k) else WorkerEnds(k);
    StepKeeps(s, step);
    var n := Next(s, step);
    RunNone(n);
    if s.all[k].worker.Handling? {
      steps, t := QuitEnds(n, k);
    } else {
      steps, t := [], n;
    }
    StepThen(s, step, steps, t, k);
    steps := [step] + steps;
  }

  /** All workers of a stopped bus can end. */
  lemma {:induction false} WorkersEnd(s: State, n: nat) returns (steps: seq<Step>, t: State)
    requires Inv(s) && s.done && n <= |s.all|
    ensures Run(s, steps, t) && Inv(t) && t == s.(all := t.all, wg := t.wg) && |t.all| == |s.all|
    ensures forall k :: 0 <= k < n ==> t.all[k].worker.Gone?
    decreases n
  {
    hide Inv;
    if n == 0 {
      steps, t := [], s;
    } else {
      steps, t := WorkersEnd(s, n - 1);
      if !t.all[n - 1].worker.Gone? {
        var b, u := QuitEnds(t, n - 1);
        MissedConcat(s, steps, t, b, u, 0);
        steps, t := steps + b, u;
      }
    }
  }

  /** The dispatcher can come back to waiting, or has ended. */
  lemma {:induction false} Settle(s: State) returns (steps: seq<Step>, t: State)
    requires Inv(s)
    ensures Run(s, steps, t) && Inv(t) && (t.dispatcher.Ready? || t.dispatcher.Ended?)
    decreases Phase(s.dispatcher), Pending(s.dispatcher)
  {
    hide Inv, Enabled, Next;
    if s.dispatcher.Ready? || s.dispatcher.Ended? {
      steps, t := [], s;
    } else {
      SettleStep(s);
      StepKeeps(s, DispatcherStep(s));
      steps, t := Settle(Next(s, DispatcherStep(s)));
      StepThen(s, DispatcherStep(s), steps, t, 0);
      steps := [DispatcherStep(s)] + steps;
    }
  }

  lemma SettleStep(s: State)
    requires Inv(s) && (s.dispatcher.Got? || s.dispatcher.Fanning?)
    ensures Enabled(s, DispatcherStep(s))
    ensures var t := Next(s, DispatcherStep(s));
      Phase(t.dispatcher) < Phase(s.dispatcher)
      || (Phase(t.dispatcher) == Phase(s.dispatcher) && Pending(t.dispatcher) < Pending(s.dispatcher))
  {
    hide DeliveryInv, ChannelInv, LiveWorkers;
    RestSuffix(s);
    if s.dispatcher.Fanning? && s.dispatcher.rest != [] {
      assert s.dispatcher.rest[0] == s.subs[|s.subs| - |s.dispatcher.rest|];
    }
  }

  /** A step that is taken where it is needed. */
  lemma TakeStep(s: State, step: Step, needed: bool) returns (steps: seq<Step>, t: State)
    requires Inv(s) && (needed ==> Enabled(s, step))
    ensures Run(s, steps, t) && Inv(t) && t == if needed then Next(s, step) else s
  {
    hide Inv, Next, Enabled;
    if needed {
      StepKeeps(s, step);
      RunOne(s, step);
      steps, t := [step], Next(s, step);
    } else {
      steps, t := [], s;
    }
  }

  /** The flag is set, the channel closed and the dispatcher gone. */
  lemma ShutDown(s: State) returns (steps: seq<Step>, t: State)
    requires Inv(s) && (s.dispatcher.Ready? || s.dispatcher.Ended?)
    ensures Run(s, steps, t) && Inv(t) && t.done && t.dispatcher.Ended?
  {
    hide Inv, Run;
    var a, u := TakeStep(s, StopFlag, !s.stopped);
    var b, v := TakeStep(u, StopClose, !u.done);
    var c, w := TakeStep(v, DispatcherEnds, v.dispatcher.Ready?);
    RunAppend(s, a, u, b, v);
    RunAppend(s, a + b, v, c, w);
    steps, t := a + b + c, w;
  }

  /** Stop never has to wait for ever: from every reachable state it can return. */
  lemma CanStop(s: State) returns (steps: seq<Step>, t: State)
    requires Inv(s)
    ensures Run(s, steps, t) && t.returned
  {
    hide Inv, Run;
    var a, u := Settle(s);
    var b, v := ShutDown(u);
    var c, w := WorkersEnd(v, |v.all|);
    NothingLeft(w);
    RunOne(w, StopReturns);
    RunAppend(s, a, u, b, v);
    RunAppend(s, a + b, v, c, w);
    RunAppend(s, a + b + c, w, [StopReturns], Next(w, StopReturns));
    steps, t := a + b + c + [StopReturns], Next(w, StopReturns);
  }

  lemma NothingLeft(s: State)
    requires Inv(s) && s.dispatcher.Ended? && forall k :: 0 <= k < |s.all| ==> s.all[k].worker.Gone?
    ensures s.wg == 0
  {
    hide DeliveryInv, ChannelInv, ListInv;
    LiveSome(s.all);
  }
}
