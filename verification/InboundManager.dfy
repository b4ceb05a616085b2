/** The inbound reconciler: no-op, reconfigure in place or rebuild, with everything attached to
    a device and the host's IPv6 aliases. */
module InboundManager {
  import opened Text
  import opened KeyedFold
  import opened NetDevice

  /** A database row id. */
  type Id = nat

  /** An IPv6 address with the host interface it is put on. */
  type Alias = string

  /** What of an amneziawg.Instance outlives the rendered config: the peer index built from it,
      the host aliases it wants, by peer email, and the ports it wants forwarded. */
  datatype Instance = Instance(peers: seq<string>, aliases: map<string, Alias>, forwards: set<string>)

  /** One desired inbound: its rendered config (None when rendering fails) and the fingerprint
      of what only a rebuild can change, both as answered on this tick. */
  datatype Want = Want(id: Id, fp: string, conf: Option<string>, inst: Instance)

  /** How the device calls of one ensureLocked turn out. */
  datatype Luck = Luck(ipcSet: bool, left: string, build: bool, configure: bool)

  datatype Managed = Managed(dev: Device, inst: Instance, peers: seq<string>, fp: string, conf: string)

  /** Everything about one id. */
  datatype Iface = Iface(dev: Device, inst: Instance, peers: seq<string>, fp: string, conf: string,
                         forwards: set<string>, running: string)

  type View = map<Id, Iface>

  datatype Effect = Built(dev: Device) | Applied(dev: Device, conf: string) | Closed(dev: Device)

  // ----- what one ensureLocked does

  function After(cur: Option<Iface>, w: Want, l: Luck, dev: Device): Option<Iface> {
    if cur.Some? && cur.value.fp == w.fp then
      match w.conf
      case None => cur
      case Some(conf) =>
        var same := cur.value.(inst := w.inst, peers := w.inst.peers, forwards := w.inst.forwards);
        if cur.value.conf == conf then Some(same)
        else if l.ipcSet then Some(same.(conf := conf, running := conf))
        else Some(cur.value.(running := l.left))
    else if l.build && w.conf.Some? && l.configure then
      Some(Iface(dev, w.inst, w.inst.peers, w.fp, w.conf.value, w.inst.forwards, w.conf.value))
    else None
  }

  predicate Succeeds(cur: Option<Iface>, w: Want, l: Luck) {
    && w.conf.Some?
    && (if cur.Some? && cur.value.fp == w.fp then cur.value.conf == w.conf.value || l.ipcSet else l.build && l.configure)
  }

  /** The device calls it makes, in order. */
  function Effects(cur: Option<Iface>, w: Want, l: Luck, dev: Device): seq<Effect> {
    if cur.Some? && cur.value.fp == w.fp then
      if w.conf.Some? && cur.value.conf != w.conf.value then [Applied(cur.value.dev, w.conf.value)] else []
    else
      (if cur.Some? then [Closed(cur.value.dev)] else []) +
      (if !l.build then []
       else if w.conf == None then [Built(dev), Closed(dev)]
       else if l.configure then [Built(dev), Applied(dev, w.conf.value)]
       else [Built(dev), Applied(dev, w.conf.value), Closed(dev)])
  }

  /** diffV6Aliases: what to add and what to remove, email by email. */
  function Adds(was: map<string, Alias>, wants: map<string, Alias>): set<Alias> {
    set e | e in wants && !(e in was && was[e] == wants[e]) :: wants[e]
  }

  function Removes(was: map<string, Alias>, wants: map<string, Alias>): set<Alias> {
    set e | e in was && !(e in wants && wants[e] == was[e]) :: was[e]
  }

  /** applyV6Aliases: every add before any remove. */
  function Diffed(on: set<Alias>, was: map<string, Alias>, wants: map<string, Alias>): set<Alias> {
    on + Adds(was, wants) - Removes(was, wants)
  }

  function AliasesWere(cur: Option<Iface>): map<string, Alias> {
    if cur.Some? then cur.value.inst.aliases else map[]
  }

  /** The host's aliases: those of the instance before give way to those of the one after, but
      only where ensureLocked gets that far. */
  function AliasesAfter(cur: Option<Iface>, on: set<Alias>, w: Want, l: Luck): set<Alias> {
    if !Succeeds(cur, w, l) then on else Diffed(on, AliasesWere(cur), w.inst.aliases)
  }

  /** The aliases some of the managed ids want. */
  function AliasesOf(v: View, ids: set<Id>): set<Alias> {
    set i, e | i in ids && i in v && e in v[i].inst.aliases :: v[i].inst.aliases[e]
  }

  // ----- what Reconcile does

  function Ids(ws: seq<Want>): (ids: seq<Id>)
    ensures |ids| == |ws|
    ensures forall i :: 0 <= i < |ws| ==> ids[i] == ws[i].id
  {
    seq(|ws|, i requires 0 <= i < |ws| => ws[i].id)
  }

  function Outcome(ws: seq<Want>, ls: seq<Luck>, devs: seq<Device>): (nat, Option<Iface>) -> Option<Iface> {
    (i: nat, cur: Option<Iface>) =>
      if i < |ws| && i < |ls| && i < |devs| then After(cur, ws[i], ls[i], devs[i]) else cur
  }

  /** The interfaces before the i-th step. */
  function Before(v: View, ws: seq<Want>, ls: seq<Luck>, devs: seq<Device>, n: nat): View
    requires n <= |ws|
  {
    Fold(Only(v, Ids(ws)), Ids(ws), Outcome(ws, ls, devs), n)
  }

  function Reconciled(v: View, ws: seq<Want>, ls: seq<Luck>, devs: seq<Device>): View {
    Before(v, ws, ls, devs, |ws|)
  }

  function EffectsOf(v: View, ws: seq<Want>, ls: seq<Luck>, devs: seq<Device>, n: nat): seq<Effect>
    requires n <= |ws| && n <= |ls| && n <= |devs|
  {
    if n == 0 then [] else
      var cur := Get(Before(v, ws, ls, devs, n - 1), ws[n - 1].id);
      EffectsOf(v, ws, ls, devs, n - 1) + Effects(cur, ws[n - 1], ls[n - 1], devs[n - 1])
  }

  /** The host's aliases after the first `n` steps. */
  function AliasesThrough(v: View, al: set<Alias>, ws: seq<Want>, ls: seq<Luck>, devs: seq<Device>, n: nat): set<Alias>
    requires n <= |ws| && n <= |ls| && n <= |devs|
  {
    if n == 0 then al - AliasesOf(v, v.Keys - set i | i in Ids(ws)) else
      var cur := Get(Before(v, ws, ls, devs, n - 1), ws[n - 1].id);
      AliasesAfter(cur, AliasesThrough(v, al, ws, ls, devs, n - 1), ws[n - 1], ls[n - 1])
  }

  /** A device made later does not matter. */
  lemma {:induction false} PrefixSame(v: View, al: set<Alias>, ws: seq<Want>, ls: seq<Luck>, devs: seq<Device>,
                                      dev: Device, n: nat)
    requires n <= |devs| && n <= |ws| == |ls|
    ensures Before(v, ws, ls, devs + [dev], n) == Before(v, ws, ls, devs, n)
    ensures EffectsOf(v, ws, ls, devs + [dev], n) == EffectsOf(v, ws, ls, devs, n)
    ensures AliasesThrough(v, al, ws, ls, devs + [dev], n) == AliasesThrough(v, al, ws, ls, devs, n)
  {
    hide Effects, AliasesAfter, AliasesOf, After, Fold;
    FoldSame(Only(v, Ids(ws)), Ids(ws), Outcome(ws, ls, devs), Outcome(ws, ls, devs + [dev]), n);
    if n > 0 { PrefixSame(v, al, ws, ls, devs, dev, n - 1); }
  }

  /** One more step. */
  lemma OneMore(v: View, al: set<Alias>, ws: seq<Want>, ls: seq<Luck>, devs: seq<Device>, dev: Device)
    requires |devs| < |ws| == |ls|
    ensures var i := |devs|; var cur := Get(Before(v, ws, ls, devs, i), ws[i].id);
      && Before(v, ws, ls, devs + [dev], i + 1) == Put(Before(v, ws, ls, devs, i), ws[i].id, After(cur, ws[i], ls[i], dev))
      && EffectsOf(v, ws, ls, devs + [dev], i + 1) == EffectsOf(v, ws, ls, devs, i) + Effects(cur, ws[i], ls[i], dev)
      && AliasesThrough(v, al, ws, ls, devs + [dev], i + 1) ==
        AliasesAfter(cur, AliasesThrough(v, al, ws, ls, devs, i), ws[i], ls[i])
  {
    hide Effects, AliasesAfter, AliasesOf, After, Fold;
    var i := |devs|;
    PrefixSame(v, al, ws, ls, devs, dev, i);
    FoldStep(Only(v, Ids(ws)), Ids(ws), Outcome(ws, ls, devs + [dev]), i);
  }

  // ----- the manager's fields

  datatype Fields = Fields(ifaces: map<Id, Managed>, next: Device, open: set<Device>, running: map<Device, string>,
                           relays: set<Device>, forwards: map<Device, set<string>>, owner: map<Device, Id>)

  /** The open devices are those of the managed ids, one each; the open UDP relays and
      port-forward sets are the ones attached to them. */
  ghost predicate Sound(f: Fields) {
    && (forall i :: i in f.ifaces ==>
          f.ifaces[i].dev in f.open && f.ifaces[i].dev in f.owner && f.owner[f.ifaces[i].dev] == i)
    && (forall d :: d in f.open ==> d in f.owner && f.owner[d] in f.ifaces && f.ifaces[f.owner[d]].dev == d)
    && (forall d :: d in f.open ==> d < f.next && d in f.running)
    && f.relays == f.open == f.forwards.Keys
  }

  ghost function ViewOf(f: Fields): View
    requires Sound(f)
  {
    map i | i in f.ifaces :: var m := f.ifaces[i];
      Iface(m.dev, m.inst, m.peers, m.fp, m.conf, f.forwards[m.dev], f.running[m.dev])
  }

  function Dropped(f: Fields, i: Id): Fields
    requires i in f.ifaces
  {
    var d := f.ifaces[i].dev;
    f.(ifaces := f.ifaces - {i}, open := f.open - {d}, relays := f.relays - {d}, forwards := f.forwards - {d})
  }

  function Placed(f: Fields, i: Id, m: Managed, keys: set<string>, run: string): Fields {
    f.(ifaces := f.ifaces[i := m], next := if m.dev < f.next then f.next else m.dev + 1, open := f.open + {m.dev},
       running := f.running[m.dev := run], relays := f.relays + {m.dev}, forwards := f.forwards[m.dev := keys],
       owner := f.owner[m.dev := i])
  }

  /** An id keeps its device, or gets a new one if it has none. */
  ghost predicate Placeable(f: Fields, i: Id, m: Managed) {
    if i in f.ifaces then m.dev == f.ifaces[i].dev else m.dev >= f.next
  }

  lemma KeysOfView(f: Fields)
    requires Sound(f)
    ensures ViewOf(f).Keys == f.ifaces.Keys
  {
  }

  lemma ViewAt(f: Fields, i: Id)
    requires Sound(f)
    ensures i in f.ifaces ==> var d := f.ifaces[i].dev;
      d in f.open && d < f.next && d in f.running && d in f.relays && d in f.forwards
    ensures Get(ViewOf(f), i) == if i !in f.ifaces then None else
      var m := f.ifaces[i]; Some(Iface(m.dev, m.inst, m.peers, m.fp, m.conf, f.forwards[m.dev], f.running[m.dev]))
  {
  }

  lemma DroppedKeeps(f: Fields, i: Id)
    requires Sound(f) && i in f.ifaces
    ensures Sound(Dropped(f, i)) && ViewOf(Dropped(f, i)) == ViewOf(f) - {i}
  {
    hide ViewOf;
    var g := Dropped(f, i);
    forall j ensures Get(ViewOf(g), j) == Get(ViewOf(f) - {i}, j) {
      ViewAt(f, j);
      ViewAt(g, j);
      assert j in f.ifaces && j != i ==> f.ifaces[j].dev != f.ifaces[i].dev;
    }
    SameEverywhere(ViewOf(g), ViewOf(f) - {i});
  }

  lemma PlacedSound(f: Fields, i: Id, m: Managed, keys: set<string>, run: string)
    requires Sound(f) && Placeable(f, i, m)
    ensures Sound(Placed(f, i, m, keys, run))
  {
  }

  function IfaceOf(m: Managed, keys: set<string>, run: string): Iface {
    Iface(m.dev, m.inst, m.peers, m.fp, m.conf, keys, run)
  }

  lemma PlacedView(f: Fields, i: Id, m: Managed, keys: set<string>, run: string)
    requires Sound(f) && Placeable(f, i, m) && Sound(Placed(f, i, m, keys, run))
    ensures ViewOf(Placed(f, i, m, keys, run)) == ViewOf(f)[i := IfaceOf(m, keys, run)]
  {
    hide ViewOf;
    var g := Placed(f, i, m, keys, run);
    forall j ensures Get(ViewOf(g), j) == Get(ViewOf(f)[i := IfaceOf(m, keys, run)], j) {
      ViewAt(f, j);
      ViewAt(g, j);
      assert j in f.ifaces && j != i ==> f.ifaces[j].dev != m.dev;
    }
    SameEverywhere(ViewOf(g), ViewOf(f)[i := IfaceOf(m, keys, run)]);
  }

  lemma RunningKeeps(f: Fields, i: Id, run: string)
    requires Sound(f) && i in f.ifaces
    ensures var g := f.(running := f.running[f.ifaces[i].dev := run]);
      Sound(g) && ViewOf(g) == ViewOf(f)[i := ViewOf(f)[i].(running := run)]
  {
    hide ViewOf;
    var g := f.(running := f.running[f.ifaces[i].dev := run]);
    ViewAt(f, i);
    assert Get(ViewOf(f), i).Some?;
    var v := ViewOf(f)[i := ViewOf(f)[i].(running := run)];
    forall j ensures Get(ViewOf(g), j) == Get(v, j) {
      ViewAt(f, j);
      ViewAt(g, j);
    }
    SameEverywhere(ViewOf(g), v);
  }

  /** A new device with its attachments, not yet anyone's. */
  function Attached(f: Fields): Fields {
    f.(next := f.next + 1, open := f.open + {f.next}, running := f.running[f.next := ""],
       relays := f.relays + {f.next}, forwards := f.forwards[f.next := {}])
  }

  function Detached(f: Fields, d: Device): Fields {
    f.(open := f.open - {d}, relays := f.relays - {d}, forwards := f.forwards - {d})
  }

  lemma AttachedFields(f: Fields)
    ensures Attached(f).next == f.next + 1 && Attached(f).ifaces == f.ifaces && Attached(f).owner == f.owner
    ensures f.next in Attached(f).running
    ensures var r := Attached(f).running; r[f.next := r[f.next]] == r
  {
  }

  lemma AttachedPlaced(f: Fields, i: Id, m: Managed, keys: set<string>, run: string)
    requires m.dev == f.next
    ensures var a := Attached(f);
      Placed(f, i, m, keys, run) == a.(ifaces := f.ifaces[i := m], running := a.running[m.dev := run],
                                       forwards := a.forwards[m.dev := keys], owner := f.owner[m.dev := i])
  {
  }

  lemma DiscardedKeeps(f: Fields, run: string)
    requires Sound(f)
    ensures var a := Attached(f); var g := Detached(a.(running := a.running[f.next := run]), f.next);
      Sound(g) && ViewOf(g) == ViewOf(f) && g.next == f.next + 1
  {
    hide ViewOf;
    var a := Attached(f);
    var g := Detached(a.(running := a.running[f.next := run]), f.next);
    assert g.open == f.open && g.relays == f.relays && g.forwards == f.forwards;
    forall j ensures Get(ViewOf(g), j) == Get(ViewOf(f), j) {
      ViewAt(f, j);
      ViewAt(g, j);
    }
    SameEverywhere(ViewOf(g), ViewOf(f));
  }

  function Members(ids: seq<Id>): set<Id> {
    set i | i in ids
  }

  /** `ids` lists the ids of `gone`, all managed, each once. */
  ghost predicate Stopped(v: View, ids: seq<Id>, gone: set<Id>) {
    Members(ids) == gone <= v.Keys && Distinct(ids)
  }

  /** The devices of these ids are closed, one after the other. */
  function Closes(v: View, ids: seq<Id>): seq<Effect> {
    if ids == [] then [] else
      var i := ids[|ids| - 1];
      Closes(v, ids[..|ids| - 1]) + if i in v then [Closed(v[i].dev)] else []
  }

  lemma StoppedMembers(v: View, ids: seq<Id>, gone: set<Id>)
    requires Stopped(v, ids, gone)
    ensures Members(ids) == gone
  {
  }

  lemma NoneStopped(v: View, al: set<Alias>, unwanted: set<Id>, log: seq<Effect>)
    requires unwanted <= v.Keys
    ensures Stopped(v, [], unwanted - unwanted) && v - Members([]) == v && al == al - AliasesOf(v, Members([]))
    ensures log == log + Closes(v, [])
  {
  }

  lemma OneStopped(v: View, now: View, al: set<Alias>, ids: seq<Id>, unwanted: set<Id>, extra: set<Id>, i: Id,
                   log: seq<Effect>)
    requires Stopped(v, ids, unwanted - extra) && i in extra && extra <= unwanted <= v.Keys
    requires now == v - Members(ids)
    ensures Stopped(v, ids + [i], unwanted - (extra - {i}))
    ensures now - {i} == v - Members(ids + [i]) && i in now && now[i] == v[i]
    ensures al - AliasesOf(v, Members(ids)) - AliasesOf(now, {i}) == al - AliasesOf(v, Members(ids + [i]))
    ensures log + Closes(v, ids) + [Closed(v[i].dev)] == log + Closes(v, ids + [i])
  {
    hide AliasesOf;
    assert i !in Members(ids) && Members(ids + [i]) == Members(ids) + {i};
    assert (ids + [i])[..|ids|] == ids;
    Minus(v, Members(ids), i);
    AliasesJoin(v, now, Members(ids), i);
    assert unwanted - (extra - {i}) == unwanted - extra + {i};
  }

  lemma AliasesJoin(v: View, now: View, ids: set<Id>, i: Id)
    requires i in now && i in v && now[i] == v[i]
    ensures AliasesOf(v, ids + {i}) == AliasesOf(v, ids) + AliasesOf(now, {i})
  {
    forall a ensures a in AliasesOf(v, ids + {i}) <==> a in AliasesOf(v, ids) + AliasesOf(now, {i}) {
      if a in AliasesOf(v, ids + {i}) {
        var j, e :| j in ids + {i} && j in v && e in v[j].inst.aliases && v[j].inst.aliases[e] == a;
        if j == i { assert e in now[i].inst.aliases; }
      }
      if a in AliasesOf(now, {i}) {
        var e :| e in now[i].inst.aliases && now[i].inst.aliases[e] == a;
        assert e in v[i].inst.aliases;
      }
    }
  }

  lemma AllStopped(v: View, keep: seq<Id>, ids: seq<Id>, unwanted: set<Id>)
    requires unwanted == v.Keys - (set i | i in keep) && Stopped(v, ids, unwanted - {})
    ensures Stopped(v, ids, unwanted) && v - Members(ids) == Only(v, keep)
  {
    assert unwanted - {} == unwanted;
    OnlyIsMinus(v, keep);
  }

  lemma AfterStop(v: View, al: set<Alias>, ws: seq<Want>, ls: seq<Luck>)
    ensures Before(v, ws, ls, [], 0) == Only(v, Ids(ws))
    ensures AliasesThrough(v, al, ws, ls, [], 0) == al - AliasesOf(v, v.Keys - set i | i in Ids(ws))
  {
  }

  lemma RemovesAll(v: View, i: Id)
    requires i in v
    ensures Adds(v[i].inst.aliases, map[]) == {} && Removes(v[i].inst.aliases, map[]) == AliasesOf(v, {i})
  {
    var m := v[i].inst.aliases;
    assert forall e :: e in m ==> m[e] in Removes(m, map[]) && m[e] in AliasesOf(v, {i});
  }

  function Elements(s: seq<Alias>): set<Alias> {
    set a | a in s
  }

  lemma ElementsPush(s: seq<Alias>, i: nat)
    requires i < |s|
    ensures Elements(s[..i + 1]) == Elements(s[..i]) + {s[i]} && Elements(s[..0]) == {}
  {
    assert s[..i + 1] == s[..i] + [s[i]];
  }

  /** The two loops over the maps. */
  method DiffAliases(was: map<string, Alias>, wants: map<string, Alias>) returns (add: seq<Alias>, remove: seq<Alias>)
    ensures Elements(add) == Adds(was, wants) && Elements(remove) == Removes(was, wants)
  {
    remove := OneWay(was, wants);
    add := OneWay(wants, was);
  }

  /** The entries of `a` that `b` does not have, in some order. */
  method OneWay(a: map<string, Alias>, b: map<string, Alias>) returns (out: seq<Alias>)
    ensures Elements(out) == set e | e in a && !(e in b && b[e] == a[e]) :: a[e]
  {
    out := [];
    var left := a.Keys;
    while left != {}
      invariant left <= a.Keys
      invariant Elements(out) == set e | e in a && e !in left && !(e in b && b[e] == a[e]) :: a[e]
      decreases |left|
    {
      var e :| e in left;
      left := left - {e};
      if e in b && b[e] == a[e] {
        continue;
      }
      ghost var before := out;
      out := out + [a[e]];
      assert Elements(out) == Elements(before) + {a[e]};
    }
  }

  class Manager {
    var ifaces: map<Id, Managed>
    const host: Host
    var relays: set<Device>
    var forwards: map<Device, set<string>>
    var aliased: set<Alias>
    ghost var owner: map<Device, Id>
    ghost var log: seq<Effect>

    ghost function Now(): Fields
      reads this, host
    {
      Fields(ifaces, host.next, host.open, host.running, relays, forwards, owner)
    }

    ghost predicate Valid()
      reads this, host
    {
      Sound(Now())
    }

    ghost function View(): View
      requires Valid()
      reads this, host
    {
      ViewOf(Now())
    }

    constructor ()
      ensures Valid() && View() == map[] && fresh(host) && aliased == {} && log == []
    {
      ifaces, relays, forwards, aliased, owner, log := map[], {}, map[], {}, map[], [];
      host := new Host();
    }

    /** managed.close and the removal of the entry. */
    method Drop(i: Id)
      requires Valid() && i in ifaces
      modifies this`ifaces, this`relays, this`forwards, this`log, host`open
      ensures Now() == Dropped(old(Now()), i) && log == old(log) + [Closed(old(ifaces[i].dev))]
      ensures Valid() && View() == old(View()) - {i}
    {
      hide Sound, ViewOf;
      DroppedKeeps(Now(), i);
      var d := ifaces[i].dev;
      forwards := forwards - {d};
      host.Close(d);
      relays := relays - {d};
      ifaces := ifaces - {i};
      log := log + [Closed(d)];
    }

    /** applyV6Aliases on what diffV6Aliases says; an add of an alias that is there, and a remove
        of one that is not, count as done. */
    method ApplyAliases(was: map<string, Alias>, wants: map<string, Alias>)
      modifies this`aliased
      ensures aliased == Diffed(old(aliased), was, wants)
    {
      hide Adds, Removes;
      var add, remove := DiffAliases(was, wants);
      for i := 0 to |add|
        invariant aliased == old(aliased) + Elements(add[..i])
      {
        ElementsPush(add, i);
        aliased := aliased + {add[i]};
      }
      assert add[..|add|] == add && remove[..0] == [];
      ghost var added := aliased;
      for i := 0 to |remove|
        invariant aliased == added - Elements(remove[..i])
      {
        ElementsPush(remove, i);
        aliased := aliased - {remove[i]};
      }
      assert remove[..|remove|] == remove;
    }

    /** What follows a no-op or a successful IpcSet: peer index, instance, aliases and forwards. */
    method Refresh(w: Want, cur: Managed, ghost f: Fields)
      requires Sound(f) && w.id in f.ifaces && cur.dev == f.ifaces[w.id].dev
      requires cur.dev in host.running && Now() == f.(running := f.running[cur.dev := host.running[cur.dev]])
      modifies this`ifaces, this`forwards, this`owner, this`aliased
      ensures Valid()
      ensures View() == ViewOf(f)[w.id :=
        Iface(cur.dev, w.inst, w.inst.peers, cur.fp, cur.conf, w.inst.forwards, host.running[cur.dev])]
      ensures aliased == Diffed(old(aliased), cur.inst.aliases, w.inst.aliases)
    {
      hide Sound, ViewOf, Diffed;
      ViewAt(f, w.id);
      var fresher := cur.(peers := w.inst.peers, inst := w.inst);
      ifaces := ifaces[w.id := fresher];
      ApplyAliases(cur.inst.aliases, w.inst.aliases);
      forwards := forwards[cur.dev := w.inst.forwards];
      owner := owner[cur.dev := w.id];
      ghost var run := host.running[cur.dev];
      assert Now() == Placed(f, w.id, fresher, w.inst.forwards, run) by {
        assert f.open == f.open + {cur.dev} && relays == f.relays + {cur.dev};
      }
      PlacedSound(f, w.id, fresher, w.inst.forwards, run);
      PlacedView(f, w.id, fresher, w.inst.forwards, run);
    }

    /** No-op or reconfigure in place. */
    method Reuse(w: Want, l: Luck) returns (ok: bool)
      requires Valid() && w.id in ifaces && ifaces[w.id].fp == w.fp
      modifies this, host`running
      ensures Valid() && ok == Succeeds(Get(old(View()), w.id), w, l)
      ensures View() == Put(old(View()), w.id, After(Get(old(View()), w.id), w, l, host.next))
      ensures log == old(log) + Effects(Get(old(View()), w.id), w, l, host.next)
      ensures aliased == AliasesAfter(Get(old(View()), w.id), old(aliased), w, l)
    {
      hide Sound, ViewOf, Diffed;
      ghost var f := Now();
      ViewAt(f, w.id);
      if w.conf == None {
        return false;
      }
      var conf := w.conf.value;
      var cur := ifaces[w.id];
      if conf != cur.conf {
        host.IpcSet(cur.dev, conf, l.ipcSet, l.left);
        log := log + [Applied(cur.dev, conf)];
        if !l.ipcSet {
          RunningKeeps(f, w.id, l.left);
          return false;
        }
        cur := cur.(conf := conf);
      }
      assert host.running == f.running[cur.dev := host.running[cur.dev]];
      Refresh(w, cur, f);
      ok := true;
    }

    /** A device with its relay and port-forward set. */
    method Attach() returns (dev: Device)
      modifies this`relays, this`forwards, this`log, host
      ensures Now() == Attached(old(Now())) && dev == old(host.next) && log == old(log) + [Built(dev)]
    {
      dev := host.New();
      log := log + [Built(dev)];
      relays, forwards := relays + {dev}, forwards[dev := {}];
    }

    /** What a failed Configure closes: the device, its relay and its port-forward set. */
    method Detach(dev: Device)
      modifies this`relays, this`forwards, this`log, host`open
      ensures Now() == Detached(old(Now()), dev) && log == old(log) + [Closed(dev)]
    {
      host.Close(dev);
      log := log + [Closed(dev)];
      relays, forwards := relays - {dev}, forwards - {dev};
    }

    /** The second half of a rebuild: a new device, attached, then configured. */
    method Build(w: Want, l: Luck) returns (ok: bool)
      requires Valid() && w.id !in ifaces
      modifies this`ifaces, this`relays, this`forwards, this`owner, this`log, host
      ensures Valid() && ok == (w.conf.Some? && l.configure) && host.next == old(host.next) + 1
      ensures View() == Put(old(View()), w.id, After(None, w, l.(build := true), old(host.next)))
      ensures log == old(log) + Effects(None, w, l.(build := true), old(host.next))
    {
      hide Sound, ViewOf, Placed, Attached, Detached;
      ghost var f := Now();
      ViewAt(f, w.id);
      AttachedFields(f);
      var dev := Attach();
      ok := w.conf.Some? && l.configure;
      if w.conf.Some? {
        host.IpcSet(dev, w.conf.value, l.configure, l.left);
        log := log + [Applied(dev, w.conf.value)];
      }
      if !ok {
        DiscardedKeeps(f, host.running[dev]);
        Detach(dev);
      } else {
        var m := Managed(dev, w.inst, w.inst.peers, w.fp, w.conf.value);
        ifaces := ifaces[w.id := m];
        forwards := forwards[dev := w.inst.forwards];
        owner := owner[dev := w.id];
        AttachedPlaced(f, w.id, m, w.inst.forwards, host.running[dev]);
        PlacedSound(f, w.id, m, w.inst.forwards, host.running[dev]);
        PlacedView(f, w.id, m, w.inst.forwards, host.running[dev]);
      }
    }

    /** Close, forget and build anew. */
    method Rebuild(w: Want, l: Luck) returns (ok: bool)
      requires Valid() && (w.id in ifaces ==> ifaces[w.id].fp != w.fp)
      modifies this, host
      ensures Valid() && host.next >= old(host.next) && ok == Succeeds(Get(old(View()), w.id), w, l)
      ensures View() == Put(old(View()), w.id, After(Get(old(View()), w.id), w, l, old(host.next)))
      ensures log == old(log) + Effects(Get(old(View()), w.id), w, l, old(host.next))
      ensures aliased == AliasesAfter(Get(old(View()), w.id), old(aliased), w, l)
    {
      hide Sound, ViewOf, Diffed, Dropped;
      ViewAt(Now(), w.id);
      var was := map[];
      if w.id in ifaces {
        was := ifaces[w.id].inst.aliases;
        Drop(w.id);
      }
      ViewAt(Now(), w.id);
      if !l.build {
        return false;
      }
      ok := Build(w, l);
      if ok {
        ApplyAliases(was, w.inst.aliases);
      }
    }

    /** One desired inbound. `dev` is the device a rebuild would make. */
    method Ensure(w: Want, l: Luck) returns (ok: bool, ghost dev: Device)
      requires Valid()
      modifies this, host
      ensures Valid() && dev == old(host.next) <= host.next
      ensures ok == Succeeds(Get(old(View()), w.id), w, l)
      ensures View() == Put(old(View()), w.id, After(Get(old(View()), w.id), w, l, dev))
      ensures log == old(log) + Effects(Get(old(View()), w.id), w, l, dev)
      ensures aliased == AliasesAfter(Get(old(View()), w.id), old(aliased), w, l)
    {
      hide Sound, ViewOf, AliasesAfter;
      ViewAt(Now(), w.id);
      dev := host.next;
      if w.id in ifaces && ifaces[w.id].fp == w.fp {
        ok := Reuse(w, l);
      } else {
        ok := Rebuild(w, l);
      }
    }

    method Remove(id: Id)
      requires Valid()
      modifies this, host`open
      ensures Valid() && View() == old(View()) - {id}
      ensures aliased == old(aliased) - AliasesOf(old(View()), {id})
      ensures log == old(log) + if id in old(View()) then [Closed(old(View())[id].dev)] else []
    {
      hide Sound, ViewOf;
      ViewAt(Now(), id);
      if id in ifaces {
        RemovesAll(View(), id);
        ApplyAliases(ifaces[id].inst.aliases, map[]);
        Drop(id);
      }
    }

    /** Stops every id outside `keep`, in the order `stopped`. */
    method Stop(keep: seq<Id>) returns (ghost stopped: seq<Id>)
      requires Valid()
      modifies this, host`open
      ensures Valid() && View() == Only(old(View()), keep)
      ensures Stopped(old(View()), stopped, old(View()).Keys - set i | i in keep)
      ensures aliased == old(aliased) - AliasesOf(old(View()), Members(stopped))
      ensures log == old(log) + Closes(old(View()), stopped)
    {
      hide Sound, ViewOf, AliasesOf, Stopped, Closes, Members;
      ghost var v, unwanted := View(), View().Keys - set i | i in keep;
      KeysOfView(Now());
      var extra := set i | i in ifaces && i !in keep;
      stopped := [];
      assert extra == unwanted;
      NoneStopped(v, aliased, unwanted, log);
      while extra != {}
        invariant Valid() && View() == v - Members(stopped) && View().Keys == ifaces.Keys
        invariant Stopped(v, stopped, unwanted - extra) && extra <= unwanted && extra <= ifaces.Keys
        invariant aliased == old(aliased) - AliasesOf(v, Members(stopped))
        invariant log == old(log) + Closes(v, stopped)
        decreases |extra|
      {
        var i :| i in extra;
        ghost var now := View();
        Remove(i);
        OneStopped(v, now, old(aliased), stopped, unwanted, extra, i, old(log));
        stopped, extra := stopped + [i], extra - {i};
        KeysOfView(Now());
      }
      AllStopped(v, keep, stopped, unwanted);
    }

    method StopAll()
      requires Valid()
      modifies this, host`open
      ensures Valid() && View() == map[]
      ensures aliased == old(aliased) - AliasesOf(old(View()), old(View()).Keys)
    {
      hide Sound, ViewOf, AliasesOf, Stopped, Members, Closes;
      ghost var v := View();
      ghost var stopped := Stop([]);
      assert Only(v, []) == map[];
      assert v.Keys - (set i: Id | i in []) == v.Keys;
      StoppedMembers(v, stopped, v.Keys);
    }

    /** Converges to `ws`; `stopped` lists the ids that had to go, in the order they went. */
    method Reconcile(ws: seq<Want>, ls: seq<Luck>) returns (ghost devs: seq<Device>, ghost stopped: seq<Id>)
      requires Valid() && |ls| == |ws|
      modifies this, host
      ensures Valid() && |devs| == |ws| && View() == Reconciled(old(View()), ws, ls, devs)
      ensures forall i :: 0 <= i < |ws| ==> old(host.next) <= devs[i] <= host.next
      ensures aliased == AliasesThrough(old(View()), old(aliased), ws, ls, devs, |ws|)
      ensures Stopped(old(View()), stopped, old(View()).Keys - set i | i in Ids(ws))
      ensures log == old(log) + Closes(old(View()), stopped) + EffectsOf(old(View()), ws, ls, devs, |ws|)
    {
      hide Sound, ViewOf, AliasesOf, Before, After, Effects, AliasesAfter, AliasesThrough, Stopped, Closes, Members;
      devs := [];
      ghost var v, al := View(), aliased;
      stopped := Stop(Ids(ws));
      ghost var begun := log;
      StoppedMembers(v, stopped, v.Keys - set i | i in Ids(ws));
      AfterStop(v, al, ws, ls);
      for i := 0 to |ws|
        invariant Valid() && |devs| == i && host.next >= old(host.next)
        invariant forall j :: 0 <= j < i ==> old(host.next) <= devs[j] <= host.next
        invariant View() == Before(v, ws, ls, devs, i)
        invariant aliased == AliasesThrough(v, al, ws, ls, devs, i)
        invariant log == begun + EffectsOf(v, ws, ls, devs, i)
      {
        var _, dev := Ensure(ws[i], ls[i]);
        OneMore(v, al, ws, ls, devs, dev);
        devs := devs + [dev];
      }
    }
  }

  // ----- what Reconcile means, for distinct ids

  /** `ws` has distinct ids and as many outcomes and devices as it needs. */
  ghost predicate Pass(ws: seq<Want>, ls: seq<Luck>, devs: seq<Device>) {
    |ls| == |ws| == |devs| && Distinct(Ids(ws))
  }

  /** The devices a rebuild may use are new. */
  ghost predicate NewTo(v: View, devs: seq<Device>) {
    forall i, k :: i in v && 0 <= k < |devs| ==> v[i].dev != devs[k]
  }

  /** Each desired id starts its own step as Reconcile found it, and ends as that step leaves it. */
  lemma EachAlone(v: View, ws: seq<Want>, ls: seq<Luck>, devs: seq<Device>, i: nat)
    requires Pass(ws, ls, devs) && i < |ws|
    ensures Get(Before(v, ws, ls, devs, i), ws[i].id) == Get(v, ws[i].id)
    ensures Get(Reconciled(v, ws, ls, devs), ws[i].id) == After(Get(v, ws[i].id), ws[i], ls[i], devs[i])
  {
    hide After, Fold;
    var kept := Only(v, Ids(ws));
    FoldElsewhere(kept, Ids(ws), Outcome(ws, ls, devs), i, Ids(ws)[i]);
    FoldAt(kept, Ids(ws), Outcome(ws, ls, devs), |ws|, i);
    assert Ids(ws)[i] in Ids(ws);
    assert Get(kept, ws[i].id) == Get(v, ws[i].id);
  }

  lemma OnlyDesired(v: View, ws: seq<Want>, ls: seq<Luck>, devs: seq<Device>, k: Id)
    requires Pass(ws, ls, devs) && k !in Ids(ws)
    ensures Get(Reconciled(v, ws, ls, devs), k) == None
  {
    hide After, Fold;
    FoldElsewhere(Only(v, Ids(ws)), Ids(ws), Outcome(ws, ls, devs), |ws|, k);
  }

  ghost predicate AllSucceed(v: View, ws: seq<Want>, ls: seq<Luck>)
    requires |ls| == |ws|
  {
    forall i :: 0 <= i < |ws| ==> Succeeds(Get(v, ws[i].id), ws[i], ls[i])
  }

  /** The entry is the wanted one: config, fingerprint, instance, peer index and forwards. */
  ghost predicate Matches(e: Iface, w: Want) {
    Some(e.conf) == w.conf && e.fp == w.fp && e.inst == w.inst && e.peers == w.inst.peers && e.forwards == w.inst.forwards
  }

  /** A fully successful Reconcile leaves exactly the desired ids, each as wanted; a device that
      was there survives exactly when its fingerprint is the wanted one. */
  lemma Converged(v: View, ws: seq<Want>, ls: seq<Luck>, devs: seq<Device>)
    requires Pass(ws, ls, devs) && NewTo(v, devs) && AllSucceed(v, ws, ls)
    ensures var r := Reconciled(v, ws, ls, devs);
      && (forall k :: k in r <==> k in Ids(ws))
      && (forall i :: 0 <= i < |ws| ==> Matches(r[Ids(ws)[i]], ws[i]))
      && (forall i :: 0 <= i < |ws| && ws[i].id in v ==>
            (r[Ids(ws)[i]].dev == v[ws[i].id].dev <==> v[ws[i].id].fp == ws[i].fp))
  {
    hide Reconciled;
    var r := Reconciled(v, ws, ls, devs);
    forall k ensures k in r <==> k in Ids(ws) {
      if k in Ids(ws) {
        var i :| 0 <= i < |ws| && Ids(ws)[i] == k;
        EachAlone(v, ws, ls, devs, i);
      } else {
        OnlyDesired(v, ws, ls, devs, k);
      }
    }
    forall i | 0 <= i < |ws|
      ensures Matches(r[Ids(ws)[i]], ws[i])
      ensures ws[i].id in v ==> (r[Ids(ws)[i]].dev == v[ws[i].id].dev <==> v[ws[i].id].fp == ws[i].fp)
    {
      EachAlone(v, ws, ls, devs, i);
    }
  }

  lemma NoOp(e: Iface, w: Want, l: Luck, dev: Device)
    requires Matches(e, w)
    ensures After(Some(e), w, l, dev) == Some(e) && Effects(Some(e), w, l, dev) == []
  {
  }

  lemma {:induction false} NoEffects(v: View, ws: seq<Want>, ls: seq<Luck>, devs: seq<Device>, n: nat)
    requires Pass(ws, ls, devs) && n <= |ws|
    requires forall i :: 0 <= i < |ws| ==> Ids(ws)[i] in v && Matches(v[Ids(ws)[i]], ws[i])
    ensures EffectsOf(v, ws, ls, devs, n) == []
  {
    hide Before, Effects, Reconciled, Matches;
    if n > 0 {
      NoEffects(v, ws, ls, devs, n - 1);
      EachAlone(v, ws, ls, devs, n - 1);
      NoOp(v[Ids(ws)[n - 1]], ws[n - 1], ls[n - 1], devs[n - 1]);
    }
  }

  /** After a fully successful Reconcile, the same one again makes no device call at all and
      changes nothing. */
  lemma Settled(v: View, ws: seq<Want>, ls: seq<Luck>, devs: seq<Device>, ls2: seq<Luck>, devs2: seq<Device>)
    requires Pass(ws, ls, devs) && NewTo(v, devs) && AllSucceed(v, ws, ls) && Pass(ws, ls2, devs2)
    ensures var r := Reconciled(v, ws, ls, devs);
      Reconciled(r, ws, ls2, devs2) == r && EffectsOf(r, ws, ls2, devs2, |ws|) == []
  {
    hide Reconciled, After, Effects, Matches;
    var r := Reconciled(v, ws, ls, devs);
    var again := Reconciled(r, ws, ls2, devs2);
    Converged(v, ws, ls, devs);
    NoEffects(r, ws, ls2, devs2, |ws|);
    forall k ensures Get(again, k) == Get(r, k) {
      if k in Ids(ws) {
        var i :| 0 <= i < |ws| && Ids(ws)[i] == k;
        EachAlone(r, ws, ls2, devs2, i);
        NoOp(r[Ids(ws)[i]], ws[i], ls2[i], devs2[i]);
      } else {
        OnlyDesired(r, ws, ls2, devs2, k);
      }
    }
    SameEverywhere(again, r);
  }

  /** After a successful step the device really runs the wanted config, except in one case: the
      config recorded for it was already the wanted one (so nothing was applied) but an earlier
      IpcSet failed half-way and left something else running. */
  lemma RunsWantedIff(v: View, ws: seq<Want>, ls: seq<Luck>, devs: seq<Device>, i: nat)
    requires Pass(ws, ls, devs) && i < |ws| && Succeeds(Get(v, ws[i].id), ws[i], ls[i])
    ensures var r := Reconciled(v, ws, ls, devs); var e := Get(v, ws[i].id);
      && ws[i].id in r
      && (r[ws[i].id].running == ws[i].conf.value <==>
            !(e.Some? && e.value.fp == ws[i].fp && e.value.conf == ws[i].conf.value && e.value.running != e.value.conf))
  {
    hide Reconciled;
    EachAlone(v, ws, ls, devs, i);
  }

  /** The case above arises: a failed change of a healthy interface, then a change back. */
  lemma HalfAppliedSurvives(e: Iface, id: Id, changed: string, mixture: string, l: Luck, dev: Device)
    requires e.running == e.conf != changed && mixture != e.conf
    ensures var failed := Reconciled(map[id := e], [Want(id, e.fp, Some(changed), e.inst)], [Luck(false, mixture, true, true)], [dev]);
      var back := Reconciled(failed, [Want(id, e.fp, Some(e.conf), e.inst)], [l], [dev]);
      && failed == map[id := e.(running := mixture)]
      && id in back && back[id].conf == e.conf && back[id].running == mixture
  {
    hide Reconciled;
    var v: View := map[id := e];
    var ws, ls := [Want(id, e.fp, Some(changed), e.inst)], [Luck(false, mixture, true, true)];
    var failed := Reconciled(v, ws, ls, [dev]);
    EachAlone(v, ws, ls, [dev], 0);
    forall k: Id ensures Get(failed, k) == Get(v[id := e.(running := mixture)], k) {
      if k != id { OnlyDesired(v, ws, ls, [dev], k); }
    }
    SameEverywhere<Id, Iface>(failed, v[id := e.(running := mixture)]);
    assert v[id := e.(running := mixture)] == map[id := e.(running := mixture)];
    EachAlone(failed, [Want(id, e.fp, Some(e.conf), e.inst)], [l], [dev], 0);
  }

  // ----- the host's aliases

  /** What the managed interfaces want the host to carry. */
  ghost function HostWants(v: View): set<Alias> {
    AliasesOf(v, v.Keys)
  }

  /** What all but one of them want. */
  ghost function Others(v: View, i: Id): set<Alias> {
    HostWants(v - {i})
  }

  lemma WantsSplit(v: View, i: Id, e: Option<Iface>)
    ensures HostWants(Put(v, i, e)) == Others(v, i) + AliasesWere(e).Values
  {
    var p, q := Put(v, i, e), v - {i};
    forall a ensures a in HostWants(p) <==> a in Others(v, i) || a in AliasesWere(e).Values {
      if a in HostWants(p) {
        var j, m :| j in p.Keys && j in p && m in p[j].inst.aliases && p[j].inst.aliases[m] == a;
        if j != i { assert q[j] == p[j] && m in q[j].inst.aliases; }
      }
      if a in Others(v, i) {
        var j, m :| j in q.Keys && j in q && m in q[j].inst.aliases && q[j].inst.aliases[m] == a;
        assert p[j] == q[j] && m in p[j].inst.aliases;
      }
      if a in AliasesWere(e).Values {
        var m :| m in e.value.inst.aliases && e.value.inst.aliases[m] == a;
        assert m in p[i].inst.aliases;
      }
    }
  }

  /** Moving from one alias map to another is right exactly when nothing that is removed for one
      email is still wanted: by another email, or by another interface. */
  lemma DiffedIff(on: set<Alias>, was: map<string, Alias>, wants: map<string, Alias>, others: set<Alias>)
    requires on == others + was.Values
    ensures Diffed(on, was, wants) == others + wants.Values <==> Removes(was, wants) !! others + wants.Values
  {
    hide Adds, Removes;
    DiffCovers(was, wants);
    if a :| a in Removes(was, wants) && a in others + wants.Values {
      assert a !in Diffed(on, was, wants);
    }
  }

  lemma DiffCovers(was: map<string, Alias>, wants: map<string, Alias>)
    ensures wants.Values <= was.Values + Adds(was, wants) && Adds(was, wants) <= wants.Values
    ensures was.Values <= wants.Values + Removes(was, wants) && Removes(was, wants) <= was.Values
  {
    forall a | a in wants.Values ensures a in was.Values + Adds(was, wants) {
      var e :| e in wants && wants[e] == a;
      if e in was && was[e] == wants[e] { assert a in was.Values; } else { assert wants[e] in Adds(was, wants); }
    }
    forall a | a in was.Values ensures a in wants.Values + Removes(was, wants) {
      var e :| e in was && was[e] == a;
      if e in wants && wants[e] == was[e] { assert a in wants.Values; } else { assert was[e] in Removes(was, wants); }
    }
    assert forall e :: e in wants ==> wants[e] in wants.Values;
    assert forall e :: e in was ==> was[e] in was.Values;
  }

  /** The step gets to the aliases and removes one that is still wanted, by another email of this
      interface or by another interface; or it closes an interface, fails to build its successor,
      and the aliases of the one it closed are not all wanted by others. */
  ghost predicate Loses(v: View, w: Want, l: Luck) {
    var cur := Get(v, w.id);
    if Succeeds(cur, w, l) then
      exists a :: a in Removes(AliasesWere(cur), w.inst.aliases) && a in Others(v, w.id) + w.inst.aliases.Values
    else
      cur.Some? && cur.value.fp != w.fp && !(cur.value.inst.aliases.Values <= Others(v, w.id))
  }

  /** From a host that carries what is wanted, a step leaves one exactly when it does not lose. */
  lemma AliasesKeptIff(v: View, w: Want, l: Luck, dev: Device)
    ensures AliasesAfter(Get(v, w.id), HostWants(v), w, l) == HostWants(Put(v, w.id, After(Get(v, w.id), w, l, dev))) <==>
      !Loses(v, w, l)
  {
    hide HostWants, Others, AliasesOf, Diffed, Removes;
    var cur := Get(v, w.id);
    WantsSplit(v, w.id, cur);
    PutBack(v, w.id);
    WantsSplit(v, w.id, After(cur, w, l, dev));
    if Succeeds(cur, w, l) {
      DiffedIff(HostWants(v), AliasesWere(cur), w.inst.aliases, Others(v, w.id));
    } else if cur.Some? && cur.value.fp != w.fp {
      assert AliasesWere(After(cur, w, l, dev)).Values == {};
    } else if cur.Some? {
      assert After(cur, w, l, dev).Some? && AliasesWere(After(cur, w, l, dev)) == AliasesWere(cur);
    }
  }

  lemma PutBack<K, V>(m: map<K, V>, k: K)
    ensures Put(m, k, Get(m, k)) == m
  {
  }

  /** Stopping what is not desired keeps the host right exactly when no alias of a stopped
      interface is wanted by one that stays. */
  lemma StopKeptIff(v: View, keep: seq<Id>)
    ensures var gone := AliasesOf(v, v.Keys - set i | i in keep);
      HostWants(v) - gone == HostWants(Only(v, keep)) <==> gone !! HostWants(Only(v, keep))
  {
    var ids := v.Keys - set i | i in keep;
    var kept := Only(v, keep);
    forall a ensures a in HostWants(v) <==> a in AliasesOf(v, ids) || a in HostWants(kept) {
      if a in HostWants(v) {
        var i, e :| i in v.Keys && i in v && e in v[i].inst.aliases && v[i].inst.aliases[e] == a;
        if i in kept { assert kept[i] == v[i] && e in kept[i].inst.aliases; } else { assert i in ids; }
      }
      if a in HostWants(kept) {
        var i, e :| i in kept.Keys && i in kept && e in kept[i].inst.aliases && kept[i].inst.aliases[e] == a;
        assert v[i] == kept[i] && e in v[i].inst.aliases;
      }
    }
  }

  /** After the stops and `n` steps the host carries exactly what the interfaces want. */
  ghost predicate TidyAt(v: View, ws: seq<Want>, ls: seq<Luck>, devs: seq<Device>, n: nat)
    requires n <= |ws| == |ls| == |devs|
  {
    AliasesThrough(v, HostWants(v), ws, ls, devs, n) == HostWants(Before(v, ws, ls, devs, n))
  }

  /** The stopped interfaces share no alias with those that stay, and no step up to the n-th loses. */
  ghost predicate NothingLost(v: View, ws: seq<Want>, ls: seq<Luck>, devs: seq<Device>, n: nat)
    requires n <= |ws| == |ls| == |devs|
  {
    && AliasesOf(v, v.Keys - set i | i in Ids(ws)) !! HostWants(Only(v, Ids(ws)))
    && forall k :: 0 <= k < n ==> !Loses(Before(v, ws, ls, devs, k), ws[k], ls[k])
  }

  /** Starting right, the host stays right through the stops and every step exactly when nothing
      is lost on the way. */
  lemma {:induction false} TidyThroughoutIff(v: View, ws: seq<Want>, ls: seq<Luck>, devs: seq<Device>, n: nat)
    requires n <= |ws| == |ls| == |devs|
    ensures (forall k :: 0 <= k <= n ==> TidyAt(v, ws, ls, devs, k)) <==> NothingLost(v, ws, ls, devs, n)
    decreases n
  {
    hide HostWants, AliasesOf, AliasesAfter, After, Loses, Before;
    if n == 0 {
      StopKeptIff(v, Ids(ws));
      BeforeNone(v, ws, ls, devs);
      var stopped := AliasesOf(v, v.Keys - set i | i in Ids(ws));
      assert AliasesThrough(v, HostWants(v), ws, ls, devs, 0) == HostWants(v) - stopped;
      assert TidyAt(v, ws, ls, devs, 0) <==> stopped !! HostWants(Only(v, Ids(ws)));
    } else {
      TidyThroughoutIff(v, ws, ls, devs, n - 1);
      if TidyAt(v, ws, ls, devs, n - 1) { TidyStepIff(v, ws, ls, devs, n - 1); }
      assert NothingLost(v, ws, ls, devs, n) <==>
        NothingLost(v, ws, ls, devs, n - 1) && !Loses(Before(v, ws, ls, devs, n - 1), ws[n - 1], ls[n - 1]);
    }
  }

  lemma TidyStepIff(v: View, ws: seq<Want>, ls: seq<Luck>, devs: seq<Device>, n: nat)
    requires n < |ws| == |ls| == |devs| && TidyAt(v, ws, ls, devs, n)
    ensures TidyAt(v, ws, ls, devs, n + 1) <==> !Loses(Before(v, ws, ls, devs, n), ws[n], ls[n])
  {
    hide HostWants, AliasesOf, AliasesAfter, After, Loses, Before;
    BeforeStep(v, ws, ls, devs, n);
    AliasesKeptIff(Before(v, ws, ls, devs, n), ws[n], ls[n], devs[n]);
  }

  lemma BeforeNone(v: View, ws: seq<Want>, ls: seq<Luck>, devs: seq<Device>)
    ensures Before(v, ws, ls, devs, 0) == Only(v, Ids(ws))
  {
  }

  lemma BeforeStep(v: View, ws: seq<Want>, ls: seq<Luck>, devs: seq<Device>, n: nat)
    requires n < |ws| == |ls| == |devs|
    ensures var b := Before(v, ws, ls, devs, n);
      Before(v, ws, ls, devs, n + 1) == Put(b, ws[n].id, After(Get(b, ws[n].id), ws[n], ls[n], devs[n]))
  {
    hide After;
    FoldStep(Only(v, Ids(ws)), Ids(ws), Outcome(ws, ls, devs), n);
  }

  // ----- where inbounds have aliases of their own

  /** Every alias an id has or is to get. */
  ghost function Claims(v: View, ws: seq<Want>, i: Id): set<Alias> {
    AliasesOf(v, {i}) + set k, e | 0 <= k < |ws| && ws[k].id == i && e in ws[k].inst.aliases :: ws[k].inst.aliases[e]
  }

  ghost predicate Apart(v: View, ws: seq<Want>) {
    forall i, j :: i != j ==> Claims(v, ws, i) !! Claims(v, ws, j)
  }

  /** As Loses, for one interface alone. */
  ghost predicate LosesOwn(cur: Option<Iface>, w: Want, l: Luck) {
    if Succeeds(cur, w, l) then
      exists a :: a in Removes(AliasesWere(cur), w.inst.aliases) && a in w.inst.aliases.Values
    else
      cur.Some? && cur.value.fp != w.fp && cur.value.inst.aliases != map[]
  }

  lemma OwnAliases(v: View, i: Id)
    ensures AliasesOf(v, {i}) == AliasesWere(Get(v, i)).Values
  {
    if i in v {
      var m := v[i].inst.aliases;
      assert forall e :: e in m ==> m[e] in AliasesOf(v, {i});
    }
  }

  lemma ClaimsWant(v: View, ws: seq<Want>, n: nat)
    requires n < |ws|
    ensures ws[n].inst.aliases.Values <= Claims(v, ws, ws[n].id)
  {
    var m := ws[n].inst.aliases;
    assert forall e :: e in m ==> m[e] in Claims(v, ws, ws[n].id);
  }

  lemma {:induction false} ClaimsHold(v: View, ws: seq<Want>, ls: seq<Luck>, devs: seq<Device>, n: nat, i: Id)
    requires n <= |ws| == |ls| == |devs|
    ensures AliasesWere(Get(Before(v, ws, ls, devs, n), i)).Values <= Claims(v, ws, i)
    decreases n
  {
    hide Claims, Before, AliasesOf;
    if n == 0 {
      BeforeNone(v, ws, ls, devs);
      OwnAliases(v, i);
      assert AliasesOf(v, {i}) <= Claims(v, ws, i) by { ClaimsOld(v, ws, i); }
    } else {
      ClaimsHold(v, ws, ls, devs, n - 1, i);
      BeforeStep(v, ws, ls, devs, n - 1);
      ClaimsWant(v, ws, n - 1);
    }
  }

  lemma ClaimsOld(v: View, ws: seq<Want>, i: Id)
    ensures AliasesOf(v, {i}) <= Claims(v, ws, i)
  {
  }

  lemma OthersApart(v: View, ws: seq<Want>, ls: seq<Luck>, devs: seq<Device>, n: nat, i: Id)
    requires n <= |ws| == |ls| == |devs| && Apart(v, ws)
    ensures Others(Before(v, ws, ls, devs, n), i) !! Claims(v, ws, i)
  {
    hide Claims, Before;
    var q := Before(v, ws, ls, devs, n) - {i};
    forall a | a in Others(Before(v, ws, ls, devs, n), i) ensures a !in Claims(v, ws, i) {
      var j, e :| j in q.Keys && j in q && e in q[j].inst.aliases && q[j].inst.aliases[e] == a;
      ClaimsHold(v, ws, ls, devs, n, j);
      assert a in AliasesWere(Get(Before(v, ws, ls, devs, n), j)).Values;
    }
  }

  lemma LosesApart(v: View, ws: seq<Want>, ls: seq<Luck>, devs: seq<Device>, n: nat)
    requires Pass(ws, ls, devs) && n < |ws| && Apart(v, ws)
    ensures Loses(Before(v, ws, ls, devs, n), ws[n], ls[n]) <==> LosesOwn(Get(v, ws[n].id), ws[n], ls[n])
  {
    hide Claims, Before, Others, Apart, Removes, AliasesOf, Reconciled;
    var cur := Get(v, ws[n].id);
    EachAlone(v, ws, ls, devs, n);
    OthersApart(v, ws, ls, devs, n, ws[n].id);
    ClaimsHold(v, ws, ls, devs, n, ws[n].id);
    DiffCovers(AliasesWere(cur), ws[n].inst.aliases);
    var others := Others(Before(v, ws, ls, devs, n), ws[n].id);
    assert AliasesWere(cur).Values !! others;
    if cur.Some? && cur.value.inst.aliases != map[] { SomeValue(cur.value.inst.aliases); }
  }

  lemma SomeValue(m: map<string, Alias>)
    requires m != map[]
    ensures m.Values != {}
  {
    var e :| e in m;
    assert m[e] in m.Values;
  }

  lemma StopApart(v: View, ws: seq<Want>)
    requires Apart(v, ws)
    ensures AliasesOf(v, v.Keys - set i | i in Ids(ws)) !! HostWants(Only(v, Ids(ws)))
  {
    hide Claims;
    var gone := v.Keys - (set i | i in Ids(ws));
    var kept := Only(v, Ids(ws));
    forall a | a in AliasesOf(v, gone) ensures a !in HostWants(kept) {
      var i, e :| i in gone && i in v && e in v[i].inst.aliases && v[i].inst.aliases[e] == a;
      ClaimsOld(v, ws, i);
      assert a in AliasesOf(v, {i});
      KeptClaims(v, ws, a);
    }
  }

  lemma KeptClaims(v: View, ws: seq<Want>, a: Alias)
    ensures a in HostWants(Only(v, Ids(ws))) ==> exists j :: j in Ids(ws) && a in Claims(v, ws, j)
  {
    hide Claims;
    var kept := Only(v, Ids(ws));
    if a in HostWants(kept) {
      var j, m :| j in kept.Keys && j in kept && m in kept[j].inst.aliases && kept[j].inst.aliases[m] == a;
      ClaimsOld(v, ws, j);
      assert m in v[j].inst.aliases && a in AliasesOf(v, {j});
    }
  }

  /** A step does not touch an alias that neither the old nor the new instance wants. */
  lemma StepElsewhere(b: View, on: set<Alias>, w: Want, l: Luck, dev: Device, a: Alias)
    requires a !in AliasesWere(Get(b, w.id)).Values && a !in w.inst.aliases.Values
    ensures a in AliasesAfter(Get(b, w.id), on, w, l) <==> a in on
    ensures a in HostWants(Put(b, w.id, After(Get(b, w.id), w, l, dev))) <==> a in HostWants(b)
  {
    hide HostWants, Others, Adds, Removes;
    var cur := Get(b, w.id);
    DiffCovers(AliasesWere(cur), w.inst.aliases);
    WantsSplit(b, w.id, cur);
    PutBack(b, w.id);
    WantsSplit(b, w.id, After(cur, w, l, dev));
  }

  /** Step `m` leaves what concerns the id of step `n` alone. */
  lemma StepApart(v: View, al: set<Alias>, ws: seq<Want>, ls: seq<Luck>, devs: seq<Device>, m: nat, i: Id, a: Alias)
    requires m < |ws| == |ls| == |devs| && Apart(v, ws) && a in Claims(v, ws, i) && ws[m].id != i
    ensures a in AliasesThrough(v, al, ws, ls, devs, m + 1) <==> a in AliasesThrough(v, al, ws, ls, devs, m)
    ensures a in HostWants(Before(v, ws, ls, devs, m + 1)) <==> a in HostWants(Before(v, ws, ls, devs, m))
  {
    hide Claims, Before, HostWants, AliasesAfter, After, AliasesOf;
    var b := Before(v, ws, ls, devs, m);
    ClaimsHold(v, ws, ls, devs, m, ws[m].id);
    ClaimsWant(v, ws, m);
    BeforeStep(v, ws, ls, devs, m);
    assert a !in Claims(v, ws, ws[m].id);
    StepElsewhere(b, AliasesThrough(v, al, ws, ls, devs, m), ws[m], ls[m], devs[m], a);
  }

  lemma {:induction false} Persists(v: View, al: set<Alias>, ws: seq<Want>, ls: seq<Luck>, devs: seq<Device>, n: nat, m: nat, a: Alias)
    requires Pass(ws, ls, devs) && n < m <= |ws| && Apart(v, ws) && a in Claims(v, ws, ws[n].id)
    ensures a in AliasesThrough(v, al, ws, ls, devs, m) <==> a in AliasesThrough(v, al, ws, ls, devs, n + 1)
    ensures a in HostWants(Before(v, ws, ls, devs, m)) <==> a in HostWants(Before(v, ws, ls, devs, n + 1))
    decreases m
  {
    hide Claims, Before, HostWants, AliasesThrough, Apart;
    if m > n + 1 {
      Persists(v, al, ws, ls, devs, n, m - 1, a);
      assert Ids(ws)[n] != Ids(ws)[m - 1];
      StepApart(v, al, ws, ls, devs, m - 1, ws[n].id, a);
    }
  }

  /** Where no two inbounds want the same alias, the host ends right exactly when no interface
      loses one of its own. */
  lemma TidyIff(v: View, ws: seq<Want>, ls: seq<Luck>, devs: seq<Device>)
    requires Pass(ws, ls, devs) && Apart(v, ws)
    ensures TidyAt(v, ws, ls, devs, |ws|) <==> forall i :: 0 <= i < |ws| ==> !LosesOwn(Get(v, Ids(ws)[i]), ws[i], ls[i])
  {
    hide TidyAt, LosesOwn, Loses, Before, Apart, AliasesOf, HostWants;
    StopApart(v, ws);
    forall k | 0 <= k < |ws|
      ensures Loses(Before(v, ws, ls, devs, k), ws[k], ls[k]) <==> LosesOwn(Get(v, Ids(ws)[k]), ws[k], ls[k])
    {
      LosesApart(v, ws, ls, devs, k);
    }
    if i :| 0 <= i < |ws| && LosesOwn(Get(v, Ids(ws)[i]), ws[i], ls[i]) {
      var n := FirstLoss(v, ws, ls, i);
      TidyThroughoutIff(v, ws, ls, devs, n);
      LossStays(v, ws, ls, devs, n);
    } else {
      TidyThroughoutIff(v, ws, ls, devs, |ws|);
    }
  }

  lemma FirstLoss(v: View, ws: seq<Want>, ls: seq<Luck>, i: nat) returns (n: nat)
    requires i < |ws| == |ls| && LosesOwn(Get(v, Ids(ws)[i]), ws[i], ls[i])
    ensures n <= i && LosesOwn(Get(v, Ids(ws)[n]), ws[n], ls[n])
    ensures forall k :: 0 <= k < n ==> !LosesOwn(Get(v, Ids(ws)[k]), ws[k], ls[k])
  {
    hide LosesOwn;
    if k :| 0 <= k < i && LosesOwn(Get(v, Ids(ws)[k]), ws[k], ls[k]) {
      n := FirstLoss(v, ws, ls, k);
    } else {
      n := i;
    }
  }

  lemma LossStays(v: View, ws: seq<Want>, ls: seq<Luck>, devs: seq<Device>, n: nat)
    requires Pass(ws, ls, devs) && n < |ws| && Apart(v, ws)
    requires TidyAt(v, ws, ls, devs, n) && Loses(Before(v, ws, ls, devs, n), ws[n], ls[n])
    ensures !TidyAt(v, ws, ls, devs, |ws|)
  {
    hide Loses, Before, Apart, HostWants, AliasesThrough, Claims;
    TidyStepIff(v, ws, ls, devs, n);
    var al, i := HostWants(v), ws[n].id;
    var on, wanted := AliasesThrough(v, al, ws, ls, devs, n + 1), HostWants(Before(v, ws, ls, devs, n + 1));
    var a :| a in on + wanted && (a in on <==> a !in wanted);
    if a !in Claims(v, ws, i) {
      OwnStep(v, ws, ls, devs, n, a);
    }
    Persists(v, al, ws, ls, devs, n, |ws|, a);
  }

  /** Step `n` touches only what its id claims. */
  lemma OwnStep(v: View, ws: seq<Want>, ls: seq<Luck>, devs: seq<Device>, n: nat, a: Alias)
    requires n < |ws| == |ls| == |devs| && a !in Claims(v, ws, ws[n].id)
    ensures a in AliasesThrough(v, HostWants(v), ws, ls, devs, n + 1) <==> a in AliasesThrough(v, HostWants(v), ws, ls, devs, n)
    ensures a in HostWants(Before(v, ws, ls, devs, n + 1)) <==> a in HostWants(Before(v, ws, ls, devs, n))
  {
    hide Claims, Before, HostWants, AliasesAfter, After, AliasesOf;
    ClaimsHold(v, ws, ls, devs, n, ws[n].id);
    ClaimsWant(v, ws, n);
    BeforeStep(v, ws, ls, devs, n);
    StepElsewhere(Before(v, ws, ls, devs, n), AliasesThrough(v, HostWants(v), ws, ls, devs, n), ws[n], ls[n], devs[n], a);
  }

  // ----- renames, swaps and failed rebuilds

  /** A peer is renamed and keeps its address: the add finds the alias there, the remove takes it. */
  lemma RenameLosesAlias(e: Iface, id: Id, a: string, b: string, x: Alias, l: Luck, dev: Device)
    requires a != b && e.inst.aliases == map[a := x]
    ensures var w := Want(id, e.fp, Some(e.conf), e.inst.(aliases := map[b := x]));
      && HostWants(map[id := e]) == {x} == w.inst.aliases.Values
      && AliasesAfter(Some(e), {x}, w, l) == {}
  {
    var v: View := map[id := e];
    assert a in v[id].inst.aliases;
    assert b in map[b := x];
    assert map[b := x].Values == {x} by { assert forall y :: y in map[b := x].Values ==> y == x; }
    var wants := map[b := x];
    assert wants[b] in Adds(map[a := x], wants) && map[a := x][a] in Removes(map[a := x], wants);
  }

  lemma OnePass(v: View, w: Want, l: Luck, dev: Device)
    requires v.Keys == {w.id}
    ensures Pass([w], [l], [dev]) && Apart(v, [w])
  {
    assert forall i :: i != w.id ==> Claims(v, [w], i) == {};
  }

  /** A whole pass over one such inbound, every call of which succeeds, ends wrong. */
  lemma RenamePassNotTidy(e: Iface, id: Id, a: string, b: string, x: Alias, l: Luck, dev: Device)
    requires a != b && e.inst.aliases == map[a := x]
    ensures var v: View := map[id := e]; var ws := [Want(id, e.fp, Some(e.conf), e.inst.(aliases := map[b := x]))];
      && Pass(ws, [l], [dev]) && Apart(v, ws) && Succeeds(Get(v, id), ws[0], l)
      && !TidyAt(v, ws, [l], [dev], 1)
  {
    hide TidyAt, Pass;
    var v: View, w := map[id := e], Want(id, e.fp, Some(e.conf), e.inst.(aliases := map[b := x]));
    OnePass(v, w, l, dev);
    assert w.inst.aliases[b] == x && AliasesWere(Get(v, id))[a] == x;
    assert LosesOwn(Get(v, Ids([w])[0]), w, l);
    TidyIff(v, [w], [l], [dev]);
  }

  /** Two peers swap addresses: both aliases go. */
  lemma SwapLosesAliases(on: set<Alias>, a: string, b: string, x: Alias, y: Alias)
    requires a != b && x != y
    ensures Diffed(on, map[a := x, b := y], map[a := y, b := x]) == on - {x, y}
  {
    var was, wants := map[a := x, b := y], map[a := y, b := x];
    assert was[a] in Removes(was, wants) && was[b] in Removes(was, wants);
    assert Removes(was, wants) == {x, y};
    assert Adds(was, wants) <= {x, y};
  }

  /** Nothing repairs it: as long as the desired aliases stay the same, a step that keeps the
      interface, or rebuilds it, neither adds nor removes any. */
  lemma NotRepaired(cur: Iface, on: set<Alias>, w: Want, l: Luck)
    requires w.inst.aliases == cur.inst.aliases
    ensures AliasesAfter(Some(cur), on, w, l) == on
  {
    assert Adds(cur.inst.aliases, w.inst.aliases) == {} && Removes(cur.inst.aliases, w.inst.aliases) == {};
  }

  /** Nor does a whole pass, once a pass has succeeded: whatever aliases the host has, the same
      pass again leaves them, however its calls turn out. */
  lemma PassRepairsNothing(v: View, on: set<Alias>, ws: seq<Want>, ls: seq<Luck>, devs: seq<Device>,
                           ls2: seq<Luck>, devs2: seq<Device>)
    requires Pass(ws, ls, devs) && NewTo(v, devs) && AllSucceed(v, ws, ls) && Pass(ws, ls2, devs2)
    ensures AliasesThrough(Reconciled(v, ws, ls, devs), on, ws, ls2, devs2, |ws|) == on
  {
    hide Reconciled, After, Before;
    Converged(v, ws, ls, devs);
    StepsRepairNothing(Reconciled(v, ws, ls, devs), on, ws, ls2, devs2, |ws|);
  }

  lemma {:induction false} StepsRepairNothing(r: View, on: set<Alias>, ws: seq<Want>, ls: seq<Luck>, devs: seq<Device>, n: nat)
    requires Pass(ws, ls, devs) && n <= |ws|
    requires forall i :: i in r ==> i in Ids(ws)
    requires forall k :: 0 <= k < |ws| ==> Ids(ws)[k] in r && r[Ids(ws)[k]].inst == ws[k].inst
    ensures AliasesThrough(r, on, ws, ls, devs, n) == on
  {
    hide Reconciled, After, Before, AliasesAfter;
    if n == 0 {
      assert r.Keys - (set i | i in Ids(ws)) == {};
      assert AliasesOf(r, {}) == {};
    } else {
      StepsRepairNothing(r, on, ws, ls, devs, n - 1);
      EachAlone(r, ws, ls, devs, n - 1);
      NotRepaired(r[Ids(ws)[n - 1]], on, ws[n - 1], ls[n - 1]);
    }
  }

  /** An interface is closed, its successor cannot be built, and a later step brings it back: what
      is left over on the host is what the old instance wanted and neither the new one nor any
      other interface does; with the same aliases as before the host is right again. */
  lemma StrayIff(v: View, w: Want, l: Luck, back: Want, again: Luck, dev: Device)
    requires w.id in v && v[w.id].fp != w.fp && !Succeeds(Some(v[w.id]), w, l)
    requires back.id == w.id && Succeeds(None, back, again)
    ensures var left := AliasesAfter(Some(v[w.id]), HostWants(v), w, l);
      var u := Put(v, w.id, After(Some(v[w.id]), w, l, dev));
      var r := Put(u, w.id, After(None, back, again, dev));
      && w.id !in u && left == HostWants(v)
      && AliasesAfter(None, left, back, again) - HostWants(r) == v[w.id].inst.aliases.Values - (Others(v, w.id) + back.inst.aliases.Values)
      && HostWants(r) <= AliasesAfter(None, left, back, again)
  {
    hide HostWants, Others, AliasesOf, Adds, Removes;
    WantsSplit(v, w.id, Some(v[w.id]));
    assert Put(v, w.id, Some(v[w.id])) == v;
    var u := Put(v, w.id, After(Some(v[w.id]), w, l, dev));
    assert u == v - {w.id};
    WantsSplit(u, w.id, After(None, back, again, dev));
    OthersSame(v, w.id);
    DiffCovers(map[], back.inst.aliases);
  }

  lemma OthersSame(v: View, i: Id)
    ensures Others(v - {i}, i) == Others(v, i)
  {
    assert (v - {i}) - {i} == v - {i};
  }
}
