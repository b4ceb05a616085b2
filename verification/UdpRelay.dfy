/** The UDP relay: one SOCKS5 association per tunnel source, opened off-lock and published
    under the lock, with one pump goroutine per published session. */
module UdpRelay {
  import opened Text

  /** A tunnel source (netip.AddrPort) and a SOCKS5 session, by identity. */
  type Addr = nat
  type Session = nat

  // ----- the three critical sections on the session map

  /** Handle's second look: keep a session that was published meanwhile. */
  function Published(sessions: map<Addr, Session>, src: Addr, own: Session): map<Addr, Session> {
    if src in sessions then sessions else sessions[src := own]
  }

  /** The pump's exit: only its own entry goes. */
  function Retired(sessions: map<Addr, Session>, src: Addr, sess: Session): map<Addr, Session> {
    if src in sessions && sessions[src] == sess then sessions - {src} else sessions
  }

  class Relay {
    var sessions: map<Addr, Session>
    var open: set<Session>

    constructor ()
      ensures sessions == map[] && open == {}
    {
      sessions, open := map[], {};
    }

    /** Under the lock, after an association: which session this packet goes to, and whether
        the caller's own lost the race and must be closed. */
    method Publish(src: Addr, own: Session) returns (sess: Session, lost: bool)
      modifies this`sessions
      ensures sessions == Published(old(sessions), src, own)
      ensures src in sessions && sess == sessions[src]
      ensures lost <==> src in old(sessions)
    {
      if src in sessions {
        return sessions[src], true;
      }
      sessions := sessions[src := own];
      return own, false;
    }

    method Retire(src: Addr, sess: Session)
      modifies this`sessions
      ensures sessions == Retired(old(sessions), src, sess)
    {
      if src in sessions && sessions[src] == sess {
        sessions := sessions - {src};
      }
    }

    /** Tears down every published session. */
    method Close()
      modifies this
      ensures sessions == map[]
      ensures open == old(open) - old(sessions).Values
    {
      ghost var all := sessions;
      while sessions != map[]
        invariant forall k :: k in sessions ==> k in all && sessions[k] == all[k]
        invariant open == old(open) - set k | k in all && k !in sessions :: all[k]
        decreases |sessions|
      {
        var k :| k in sessions;
        open := open - {sessions[k]};
        sessions := sessions - {k};
      }
      assert all.Values == set k | k in all && k !in sessions :: all[k];
    }
  }

  // ----- the protocol: any number of Handle calls, pumps and Close calls interleave

  datatype Task =
    | Missed(src: Addr)                                // looked up nothing, associating off-lock
    | Fresh(src: Addr, own: Session)                   // associated, about to take the lock
    | Discard(src: Addr, own: Session, use: Session)   // lost the race, about to close its own
    | Launch(src: Addr, own: Session)                  // published, about to start the pump
    | Send(src: Addr, use: Session)                    // about to send the packet
    | Pumping(src: Addr, own: Session)                 // the pump of a session
    | Leaving(src: Addr, own: Session)                 // the pump after its map section, about to close

  /** `next` is the supply of new sessions; `owner` is history: the goroutine that answers for
      closing a session. */
  datatype State = State(sessions: map<Addr, Session>, open: set<Session>, next: Session,
                         tasks: map<nat, Task>, owner: map<Session, nat>)

  datatype Step =
    | Lookup(t: nat, src: Addr)
    | AssociateFails(t: nat)
    | Associate(t: nat)
    | Publish(t: nat)
    | CloseOwn(t: nat)
    | StartPump(t: nat, p: nat)
    | SendDone(t: nat)
    | PumpRetire(t: nat)
    | PumpClose(t: nat)
    | CloseAll

  predicate Enabled(s: State, step: Step) {
    match step
    case Lookup(t, _) => t !in s.tasks
    case AssociateFails(t) => t in s.tasks && s.tasks[t].Missed?
    case Associate(t) => t in s.tasks && s.tasks[t].Missed?
    case Publish(t) => t in s.tasks && s.tasks[t].Fresh?
    case CloseOwn(t) => t in s.tasks && s.tasks[t].Discard?
    case StartPump(t, p) => t in s.tasks && s.tasks[t].Launch? && p !in s.tasks
    case SendDone(t) => t in s.tasks && s.tasks[t].Send?
    case PumpRetire(t) => t in s.tasks && s.tasks[t].Pumping?
    case PumpClose(t) => t in s.tasks && s.tasks[t].Leaving?
    case CloseAll => true
  }

  function Next(s: State, step: Step): State
    requires Enabled(s, step)
  {
    match step
    case Lookup(t, src) =>
      s.(tasks := s.tasks[t := if src in s.sessions then Send(src, s.sessions[src]) else Missed(src)])
    case AssociateFails(t) => s.(tasks := s.tasks - {t})
    case Associate(t) =>
      s.(tasks := s.tasks[t := Fresh(s.tasks[t].src, s.next)], open := s.open + {s.next}, next := s.next + 1,
         owner := s.owner[s.next := t])
    case Publish(t) =>
      var Fresh(src, own) := s.tasks[t];
      s.(sessions := Published(s.sessions, src, own),
         tasks := s.tasks[t := if src in s.sessions then Discard(src, own, s.sessions[src]) else Launch(src, own)])
    case CloseOwn(t) =>
      s.(open := s.open - {s.tasks[t].own}, tasks := s.tasks[t := Send(s.tasks[t].src, s.tasks[t].use)])
    case StartPump(t, p) =>
      var Launch(src, own) := s.tasks[t];
      s.(tasks := s.tasks[t := Send(src, own)][p := Pumping(src, own)], owner := s.owner[own := p])
    case SendDone(t) => s.(tasks := s.tasks - {t})
    case PumpRetire(t) =>
      var Pumping(src, own) := s.tasks[t];
      s.(sessions := Retired(s.sessions, src, own), tasks := s.tasks[t := Leaving(src, own)])
    case PumpClose(t) => s.(open := s.open - {s.tasks[t].own}, tasks := s.tasks - {t})
    case CloseAll => s.(sessions := map[], open := s.open - s.sessions.Values)
  }

  function Start(): State { State(map[], {}, 0, map[], map[]) }

  // ----- the invariant

  ghost predicate Holds(task: Task) {
    !task.Missed? && !task.Send?
  }

  /** A pump, running or about to be started. */
  ghost predicate Live(task: Task) {
    task.Launch? || task.Pumping?
  }

  /** A goroutine that holds a session is its only owner. */
  ghost predicate OneOwner(s: State) {
    forall t :: t in s.tasks && Holds(s.tasks[t]) ==>
      s.tasks[t].own < s.next && s.tasks[t].own in s.owner && s.owner[s.tasks[t].own] == t
  }

  ghost predicate HeldBy(s: State, x: Session) {
    x in s.owner && s.owner[x] in s.tasks && Holds(s.tasks[s.owner[x]]) && s.tasks[s.owner[x]].own == x
  }

  /** No open session is without an owner. */
  ghost predicate AllHeld(s: State) {
    forall x :: x in s.open ==> HeldBy(s, x)
  }

  /** A session that is not yet published is open. */
  ghost predicate Unpublished(s: State) {
    forall t :: t in s.tasks && (s.tasks[t].Fresh? || s.tasks[t].Discard?) ==> s.tasks[t].own in s.open
  }

  /** A published session is open and its owner is the pump of its source. */
  ghost predicate Pumped(s: State) {
    forall k :: k in s.sessions ==>
      && s.sessions[k] in s.open
      && HeldBy(s, s.sessions[k])
      && Live(s.tasks[s.owner[s.sessions[k]]])
      && s.tasks[s.owner[s.sessions[k]]].src == k
  }

  /** A pump whose session is open has it published for its source. */
  ghost predicate LivePublished(s: State) {
    forall t :: t in s.tasks && Live(s.tasks[t]) && s.tasks[t].own in s.open ==>
      s.tasks[t].src in s.sessions && s.sessions[s.tasks[t].src] == s.tasks[t].own
  }

  ghost predicate Inv(s: State) {
    OneOwner(s) && AllHeld(s) && Unpublished(s) && Pumped(s) && LivePublished(s)
  }

  lemma OneOwnerStep(s: State, step: Step)
    requires OneOwner(s) && Enabled(s, step)
    ensures OneOwner(Next(s, step))
  {
  }

  lemma AllHeldStep(s: State, step: Step)
    requires OneOwner(s) && AllHeld(s) && Enabled(s, step)
    ensures AllHeld(Next(s, step))
  {
    var n := Next(s, step);
    forall x | x in n.open ensures HeldBy(n, x) {
      assert x in s.open ==> HeldBy(s, x);
    }
  }

  lemma UnpublishedStep(s: State, step: Step)
    requires OneOwner(s) && Pumped(s) && Unpublished(s) && Enabled(s, step)
    ensures Unpublished(Next(s, step))
  {
    var n := Next(s, step);
    forall t | t in n.tasks && (n.tasks[t].Fresh? || n.tasks[t].Discard?) ensures n.tasks[t].own in n.open {
    }
  }

  lemma PumpedStep(s: State, step: Step)
    requires OneOwner(s) && AllHeld(s) && Unpublished(s) && Pumped(s) && Enabled(s, step)
    ensures Pumped(Next(s, step))
  {
    var n := Next(s, step);
    forall k | k in n.sessions
      ensures n.sessions[k] in n.open && HeldBy(n, n.sessions[k])
      ensures Live(n.tasks[n.owner[n.sessions[k]]]) && n.tasks[n.owner[n.sessions[k]]].src == k
    {
      if k in s.sessions { assert HeldBy(s, s.sessions[k]); }
    }
  }

  lemma LivePublishedStep(s: State, step: Step)
    requires OneOwner(s) && LivePublished(s) && Enabled(s, step)
    ensures LivePublished(Next(s, step))
  {
    var n := Next(s, step);
    forall t | t in n.tasks && Live(n.tasks[t]) && n.tasks[t].own in n.open
      ensures n.tasks[t].src in n.sessions && n.sessions[n.tasks[t].src] == n.tasks[t].own
    {
    }
  }

  lemma StepKeeps(s: State, step: Step)
    requires Inv(s) && Enabled(s, step)
    ensures Inv(Next(s, step))
  {
    hide OneOwner, AllHeld, Unpublished, Pumped, LivePublished, Next;
    OneOwnerStep(s, step);
    AllHeldStep(s, step);
    UnpublishedStep(s, step);
    PumpedStep(s, step);
    LivePublishedStep(s, step);
  }

  ghost predicate Run(s: State, steps: seq<Step>, t: State)
    decreases |steps|
  {
    if steps == [] then s == t else Enabled(s, steps[0]) && Run(Next(s, steps[0]), steps[1..], t)
  }

  lemma {:induction false} RunKeeps(s: State, steps: seq<Step>, t: State)
    requires Inv(s) && Run(s, steps, t)
    ensures Inv(t)
    decreases |steps|
  {
    hide Inv;
    if steps != [] {
      StepKeeps(s, steps[0]);
      RunKeeps(Next(s, steps[0]), steps[1..], t);
    }
  }

  // ----- what it means

  /** Goroutine `t` pumps the open session `x` for source `k`. */
  ghost predicate LiveFor(s: State, t: nat, k: Addr, x: Session) {
    t in s.tasks && x in s.open && (s.tasks[t] == Launch(k, x) || s.tasks[t] == Pumping(k, x))
  }

  /** In every reachable state: every published session is open and has a pump; no two sources
      share a session; and a source never has two live pumps, whichever sessions they read. */
  lemma SessionsExact(steps: seq<Step>, s: State)
    requires Run(Start(), steps, s)
    ensures forall k :: k in s.sessions ==> exists t :: LiveFor(s, t, k, s.sessions[k])
    ensures forall k, j :: k in s.sessions && j in s.sessions && s.sessions[k] == s.sessions[j] ==> k == j
    ensures forall t, u, k, x, y :: LiveFor(s, t, k, x) && LiveFor(s, u, k, y) ==> t == u && x == y
  {
    RunKeeps(Start(), steps, s);
    forall k | k in s.sessions ensures exists t :: LiveFor(s, t, k, s.sessions[k]) {
      assert LiveFor(s, s.owner[s.sessions[k]], k, s.sessions[k]);
    }
  }

  /** A pump that exits takes at most its own session out of the map, whatever was published
      for its source in the meantime. */
  lemma PumpEvictsOnlyItself(steps: seq<Step>, s: State, t: nat, k: Addr)
    requires Run(Start(), steps, s) && Enabled(s, PumpRetire(t)) && k in s.sessions
    ensures var n := Next(s, PumpRetire(t));
      k in n.sessions && n.sessions[k] == s.sessions[k] <==> s.tasks[t].own != s.sessions[k]
  {
    RunKeeps(Start(), steps, s);
    assert HeldBy(s, s.sessions[k]);
  }

  /** No leak: every open session is published, or held by a Handle call that has not decided
      or is discarding it, or by a pump that has not closed it yet. So once no goroutine holds
      a session, nothing is published and nothing is open. */
  lemma NoLeak(steps: seq<Step>, s: State)
    requires Run(Start(), steps, s)
    ensures forall x :: x in s.open ==>
      || x in s.sessions.Values
      || exists t :: t in s.tasks && (s.tasks[t].Fresh? || s.tasks[t].Discard? || s.tasks[t].Leaving?) && s.tasks[t].own == x
    ensures (forall t :: t in s.tasks ==> !Holds(s.tasks[t])) ==> s.open == {} && s.sessions == map[]
  {
    RunKeeps(Start(), steps, s);
    forall x | x in s.open
      ensures x in s.sessions.Values
        || exists t :: t in s.tasks && (s.tasks[t].Fresh? || s.tasks[t].Discard? || s.tasks[t].Leaving?) && s.tasks[t].own == x
    {
      assert HeldBy(s, x);
      var t := s.owner[x];
      if Live(s.tasks[t]) {
        assert s.tasks[t].src in s.sessions.Keys;
      } else {
        assert s.tasks[t].own == x;
      }
    }
    if forall t :: t in s.tasks ==> !Holds(s.tasks[t]) {
      assert s.open == {} by {
        assert forall x :: x in s.open ==> HeldBy(s, x);
      }
      assert s.sessions.Keys == {};
    }
  }

  // ----- which session a packet goes to

  /** What a Handle call saw the last time it held the lock: the session published for its source
      then, if any; whether that was at its lookup; whether it has associated since its lookup;
      and whether a pump or Close has closed the session since. Told from the session map alone. */
  datatype Sight = Sight(seen: Option<(Addr, Session)>, hit: bool, associated: bool, swept: bool)

  ghost function Looked(s: State, src: Addr, before: Sight): Sight {
    before.(seen := if src in s.sessions then Some((src, s.sessions[src])) else None, swept := false)
  }

  /** What call `t` has seen after one more step. */
  ghost function See(s: State, step: Step, t: nat, before: Sight): Sight
    requires Enabled(s, step)
  {
    match step
    case Lookup(u, src) =>
      if u == t then Looked(s, src, before).(hit := src in s.sessions, associated := false) else before
    case Publish(u) => if u == t then Looked(Next(s, step), s.tasks[t].src, before) else before
    case Associate(u) => if u == t then before.(associated := true) else before
    case PumpClose(u) =>
      if before.seen.Some? && s.tasks[u].own == before.seen.value.1 then before.(swept := true) else before
    case CloseAll =>
      if before.seen.Some? && before.seen.value.1 in s.sessions.Values then before.(swept := true) else before
    case _ => before
  }

  ghost function Saw(s: State, steps: seq<Step>, t: nat, before: Sight): Sight
    requires CanRun(s, steps)
    decreases |steps|
  {
    if steps == [] then before else Saw(Next(s, steps[0]), steps[1..], t, See(s, steps[0], t, before))
  }

  ghost predicate CanRun(s: State, steps: seq<Step>)
    decreases |steps|
  {
    steps != [] ==> Enabled(s, steps[0]) && CanRun(Next(s, steps[0]), steps[1..])
  }

  const BLIND := Sight(None, false, false, false)

  /** What the last look says about the rest of call `t`. */
  ghost predicate Sees(s: State, t: nat, h: Sight) {
    && (h.seen.Some? ==>
          && h.seen.value.1 < s.next
          && (h.seen.value.1 in s.open <==> !h.swept)
          && forall u :: u in s.tasks && (s.tasks[u].Fresh? || s.tasks[u].Discard?) ==> s.tasks[u].own != h.seen.value.1)
    && (t in s.tasks ==>
          match s.tasks[t]
          case Missed(_) => !h.hit && !h.associated
          case Fresh(_, _) => !h.hit && h.associated
          case Discard(src, own, use) => h.seen == Some((src, use)) && use != own && !h.hit && h.associated
          case Launch(src, own) => h.seen == Some((src, own)) && !h.hit && h.associated
          case Send(src, use) => h.seen == Some((src, use)) && h.hit == !h.associated
          case _ => true)
  }

  lemma SeesStep(s: State, step: Step, t: nat, h: Sight)
    requires Inv(s) && Sees(s, t, h) && Enabled(s, step)
    ensures Sees(Next(s, step), t, See(s, step, t, h))
  {
    hide LivePublished, AllHeld;
    assert forall k :: k in s.sessions ==> HeldBy(s, s.sessions[k]);
    if step.Publish? {
      assert HeldBy(Next(s, step), s.tasks[step.t].own);
    }
  }

  lemma {:induction false} SeesRun(s: State, steps: seq<Step>, n: State, t: nat, h: Sight)
    requires Inv(s) && Sees(s, t, h) && Run(s, steps, n)
    ensures CanRun(s, steps) && Sees(n, t, Saw(s, steps, t, h))
    decreases |steps|
  {
    hide Inv, Sees, See;
    if steps != [] {
      SeesStep(s, steps[0], t, h);
      StepKeeps(s, steps[0]);
      SeesRun(Next(s, steps[0]), steps[1..], n, t, See(s, steps[0], t, h));
    }
  }

  /** Over every run: a packet of source k goes out on the session that was published for k when
      its Handle call last held the lock. That session is open unless a pump or Close closed it
      since. The call associated exactly if nothing was published at its lookup. */
  lemma SendsOnPublished(steps: seq<Step>, s: State, t: nat)
    requires Run(Start(), steps, s) && t in s.tasks && s.tasks[t].Send?
    ensures CanRun(Start(), steps)
    ensures var h := Saw(Start(), steps, t, BLIND);
      && h.seen == Some((s.tasks[t].src, s.tasks[t].use))
      && (s.tasks[t].use in s.open <==> !h.swept)
      && (h.associated <==> !h.hit)
  {
    SeesRun(Start(), steps, s, t, BLIND);
  }

  /** The loser of a race closes its own session, which nobody was given, and sends on the other. */
  lemma LoserSendsOnWinner(steps: seq<Step>, s: State, t: nat)
    requires Run(Start(), steps, s) && Enabled(s, CloseOwn(t))
    ensures var n := Next(s, CloseOwn(t)); var own := s.tasks[t].own;
      && n.tasks[t].Send? && n.tasks[t].src == s.tasks[t].src && n.tasks[t].use != own
      && own in s.open && n.open == s.open - {own} && own !in s.sessions.Values
      && CanRun(Start(), steps) && Saw(Start(), steps, t, BLIND).seen == Some((n.tasks[t].src, n.tasks[t].use))
  {
    RunKeeps(Start(), steps, s);
    SeesRun(Start(), steps, s, t, BLIND);
    forall k | k in s.sessions ensures s.sessions[k] != s.tasks[t].own {
      assert HeldBy(s, s.sessions[k]);
    }
  }

  // ----- progress

  lemma {:induction false} RunConcat(s: State, a: seq<Step>, u: State, b: seq<Step>, t: State)
    requires Run(s, a, u) && Run(u, b, t)
    ensures Run(s, a + b, t)
    decreases |a|
  {
    hide Next, Enabled;
    if a == [] {
      assert a + b == b;
    } else {
      RunConcat(Next(s, a[0]), a[1..], u, b, t);
      assert (a + b)[1..] == a[1..] + b;
    }
  }

  /** One more step at the front of a run. */
  lemma RunFirst(s: State, step: Step, steps: seq<Step>, t: State)
    requires Enabled(s, step) && Run(Next(s, step), steps, t)
    ensures Run(s, [step] + steps, t)
  {
    hide Next, Enabled;
    assert ([step] + steps)[1..] == steps;
  }

  lemma {:induction false} UnusedTask(used: set<nat>) returns (p: nat)
    ensures forall u :: u in used ==> u < p
    decreases used
  {
    if used == {} {
      p := 0;
    } else {
      var some :| some in used;
      var q := UnusedTask(used - {some});
      p := if q > some then q else some + 1;
      assert forall u :: u in used ==> u == some || u in used - {some};
    }
  }

  /** A pump, or a call about to send, comes to its end. */
  lemma PumpEnds(s: State, p: nat) returns (steps: seq<Step>, t: State)
    requires p in s.tasks && (s.tasks[p].Pumping? || s.tasks[p].Leaving? || s.tasks[p].Send?)
    ensures Run(s, steps, t) && NoLookup(steps) && NoAssociation(steps) && t.tasks == s.tasks - {p}
    decreases s.tasks[p].Pumping?
  {
    if s.tasks[p].Pumping? {
      var u := Next(s, PumpRetire(p));
      steps, t := PumpEnds(u, p);
      RunFirst(s, PumpRetire(p), steps, t);
      steps := [PumpRetire(p)] + steps;
    } else {
      var step := if s.tasks[p].Send? then SendDone(p) else PumpClose(p);
      steps, t := [step], Next(s, step);
      assert Run(t, [], t);
      RunFirst(s, step, [], t);
      assert [step] + [] == [step];
    }
  }

  ghost function StepsLeft(task: Task): nat {
    match task
    case Missed(_) => 3
    case Fresh(_, _) => 2
    case Discard(_, _, _) => 1
    case _ => 0
  }

  ghost predicate NoAssociation(steps: seq<Step>) {
    forall i :: 0 <= i < |steps| ==> !steps[i].Associate?
  }

  /** Every goroutine can finish on its own: a call that missed gives up when it cannot associate,
      else it publishes its session or closes it, starts its pump and sends; a pump retires and
      closes. */
  lemma TaskEnds(s: State, t: nat, reachable: bool) returns (steps: seq<Step>, n: State)
    requires t in s.tasks
    ensures Run(s, steps, n) && NoLookup(steps) && (!reachable ==> NoAssociation(steps)) && n.tasks == s.tasks - {t}
    decreases StepsLeft(s.tasks[t]), 1
  {
    match s.tasks[t]
    case Launch(_, _) =>
      var p := UnusedTask(s.tasks.Keys);
      var u := Next(s, StartPump(t, p));
      var pump, v := PumpEnds(u, p);
      var send, w := PumpEnds(v, t);
      RunConcat(u, pump, v, send, w);
      RunFirst(s, StartPump(t, p), pump + send, w);
      steps, n := [StartPump(t, p)] + (pump + send), w;
      assert n.tasks == s.tasks - {t};
    case Missed(_) =>
      if reachable {
        steps, n := ThenEnds(s, Associate(t), t, reachable);
      } else {
        steps, n := [AssociateFails(t)], Next(s, AssociateFails(t));
        assert Run(n, [], n);
        RunFirst(s, AssociateFails(t), [], n);
        assert [AssociateFails(t)] + [] == [AssociateFails(t)];
      }
    case Fresh(_, _) => steps, n := ThenEnds(s, Publish(t), t, reachable);
    case Discard(_, _, _) => steps, n := ThenEnds(s, CloseOwn(t), t, reachable);
    case _ => steps, n := PumpEnds(s, t);
  }

  lemma ThenEnds(s: State, step: Step, t: nat, reachable: bool) returns (steps: seq<Step>, n: State)
    requires t in s.tasks && Enabled(s, step) && step in [Associate(t), Publish(t), CloseOwn(t)] && (step.Associate? ==> reachable)
    ensures Run(s, steps, n) && NoLookup(steps) && (!reachable ==> NoAssociation(steps)) && n.tasks == s.tasks - {t}
    decreases StepsLeft(s.tasks[t]), 0
  {
    var u := Next(s, step);
    steps, n := TaskEnds(u, t, reachable);
    RunFirst(s, step, steps, n);
    steps := [step] + steps;
  }

  /** From every reachable state, without another packet, and whether or not the proxy can be
      reached, all goroutines can finish; then no session is published and none is open. */
  lemma {:induction false} CanQuiesce(s: State, reachable: bool) returns (steps: seq<Step>, t: State)
    requires Inv(s)
    ensures Run(s, steps, t) && NoLookup(steps) && (!reachable ==> NoAssociation(steps))
    ensures t.tasks == map[] && t.sessions == map[] && t.open == {}
    decreases |s.tasks|
  {
    hide Inv, Next, Enabled;
    if s.tasks == map[] {
      steps, t := [], s;
      NobodyHolds(s);
    } else {
      var k :| k in s.tasks;
      var a, u := TaskEnds(s, k, reachable);
      RunKeeps(s, a, u);
      var b;
      b, t := CanQuiesce(u, reachable);
      RunConcat(s, a, u, b, t);
      steps := a + b;
    }
  }

  lemma NobodyHolds(s: State)
    requires Inv(s) && s.tasks == map[]
    ensures s.sessions == map[] && s.open == {}
  {
    assert forall x :: x in s.open ==> HeldBy(s, x);
    assert s.sessions.Keys == {};
  }

  // ----- after Close

  /** Nothing is published, and no Handle call is on its way to publishing. */
  ghost predicate Quiet(s: State) {
    s.sessions == map[] && NoneComing(s)
  }

  ghost predicate NoneComing(s: State) {
    forall t :: t in s.tasks ==> !s.tasks[t].Missed? && !s.tasks[t].Fresh?
  }

  ghost predicate NoLookup(steps: seq<Step>) {
    forall i :: 0 <= i < |steps| ==> !steps[i].Lookup?
  }

  lemma {:induction false} QuietStays(s: State, steps: seq<Step>, t: State)
    requires Quiet(s) && NoLookup(steps) && Run(s, steps, t)
    ensures Quiet(t)
    decreases |steps|
  {
    hide Quiet;
    if steps != [] {
      QuietStep(s, steps[0]);
      QuietStays(Next(s, steps[0]), steps[1..], t);
    }
  }

  lemma QuietStep(s: State, step: Step)
    requires Quiet(s) && Enabled(s, step) && !step.Lookup?
    ensures Quiet(Next(s, step))
  {
  }

  lemma {:induction false} RunThen(s: State, step: Step, next: Step)
    requires Enabled(s, step) && Enabled(Next(s, step), next)
    ensures Run(s, [step, next], Next(Next(s, step), next))
  {
    hide Next, Enabled;
    assert [step, next][1..] == [next] && [next][1..] == [];
    assert Run(Next(Next(s, step), next), [], Next(Next(s, step), next));
    assert Run(Next(s, step), [next], Next(Next(s, step), next));
  }

  /** Close is final, with packet delivery stopped, exactly when every Handle call is past its
      decision: otherwise a call that already missed publishes a session nobody sweeps. */
  lemma CloseFinalIff(s: State)
    ensures (forall steps, t :: NoLookup(steps) && Run(Next(s, CloseAll), steps, t) ==> t.sessions == map[]) <==> NoneComing(s)
  {
    hide Run;
    var c := Next(s, CloseAll);
    assert c.sessions == map[] && c.tasks == s.tasks;
    if NoneComing(s) {
      forall steps, t | NoLookup(steps) && Run(c, steps, t) ensures t.sessions == map[] {
        QuietStays(c, steps, t);
      }
    } else {
      var t :| t in s.tasks && (s.tasks[t].Missed? || s.tasks[t].Fresh?);
      var steps, d := ComesThrough(c, t);
      assert NoLookup(steps) && Run(c, steps, d);
    }
  }

  /** A call that missed, or has its session already, publishes it where nothing is published. */
  lemma ComesThrough(s: State, t: nat) returns (steps: seq<Step>, d: State)
    requires s.sessions == map[] && t in s.tasks && (s.tasks[t].Missed? || s.tasks[t].Fresh?)
    ensures NoLookup(steps) && Run(s, steps, d) && s.tasks[t].src in d.sessions
  {
    if s.tasks[t].Missed? {
      steps, d := [Associate(t), Publish(t)], Next(Next(s, Associate(t)), Publish(t));
      RunThen(s, Associate(t), Publish(t));
    } else {
      steps, d := [Publish(t)], Next(s, Publish(t));
      assert [Publish(t)][1..] == [];
    }
  }

  /** Such a run: a packet misses, the relay is closed, and the packet's session is then
      published and open. */
  lemma PublishedAfterClose(src: Addr)
    ensures var missed := Next(Start(), Lookup(0, src)); var closed := Next(missed, CloseAll);
      var s := Next(Next(closed, Associate(0)), Publish(0));
      && Run(Start(), [Lookup(0, src), CloseAll, Associate(0), Publish(0)], s)
      && src in s.sessions && s.sessions[src] in s.open
  {
    var missed := Next(Start(), Lookup(0, src));
    var closed := Next(missed, CloseAll);
    RunThen(closed, Associate(0), Publish(0));
    var steps := [Lookup(0, src), CloseAll, Associate(0), Publish(0)];
    assert steps[1..][1..] == [Associate(0), Publish(0)];
    assert steps[1..][0] == CloseAll;
  }
}
