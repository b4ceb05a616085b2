/** The outbound reconciler and the egress registry that must agree with it. */
module OutboundManager {
  import opened Text
  import opened KeyedFold
  import opened NetDevice

  /** One desired outbound: its rendered config (None when rendering fails), the address and
      MTU fingerprint, and its normalized DNS server ("" for none). */
  datatype Want = Want(tag: string, conf: Option<string>, fp: string, dns: string)

  /** How the device calls of one ensureLocked turn out. */
  datatype Luck = Luck(ipcSet: bool, left: string, build: bool, configure: bool)

  /** managedOutbound. */
  datatype Managed = Managed(dev: Device, conf: string, fp: string)

  /** Everything about one tag: the manager's entry, the registry's DNS server and what the
      device really runs. */
  datatype Tunnel = Tunnel(dev: Device, conf: string, fp: string, dns: string, running: string)

  type View = map<string, Tunnel>

  function DnsOf(dns: map<string, string>, t: string): string {
    if t in dns then dns[t] else ""
  }

  // ----- what one ensureLocked does

  function After(cur: Option<Tunnel>, w: Want, l: Luck, dev: Device): Option<Tunnel> {
    match w.conf
    case None => cur
    case Some(conf) =>
      if cur.Some? && cur.value.fp == w.fp then
        if cur.value.conf == conf then Some(cur.value.(dns := w.dns))
        else if l.ipcSet then Some(cur.value.(conf := conf, running := conf, dns := w.dns))
        else Some(cur.value.(running := l.left))
      else if l.build && l.configure then Some(Tunnel(dev, conf, w.fp, w.dns, conf))
      else None
  }

  predicate Succeeds(cur: Option<Tunnel>, w: Want, l: Luck) {
    && w.conf.Some?
    && (if cur.Some? && cur.value.fp == w.fp then cur.value.conf == w.conf.value || l.ipcSet else l.build && l.configure)
  }

  function Tags(ws: seq<Want>): (ts: seq<string>)
    ensures |ts| == |ws|
    ensures forall i :: 0 <= i < |ws| ==> ts[i] == ws[i].tag
  {
    seq(|ws|, i requires 0 <= i < |ws| => ws[i].tag)
  }

  function Outcome(ws: seq<Want>, ls: seq<Luck>, devs: seq<Device>): (nat, Option<Tunnel>) -> Option<Tunnel> {
    (i: nat, cur: Option<Tunnel>) =>
      if i < |ws| && i < |ls| && i < |devs| then After(cur, ws[i], ls[i], devs[i]) else cur
  }

  /** Reconcile as a whole. */
  function Reconciled(v: View, ws: seq<Want>, ls: seq<Luck>, devs: seq<Device>): View {
    Fold(Only(v, Tags(ws)), Tags(ws), Outcome(ws, ls, devs), |ws|)
  }

  // ----- the registry half of the egress server

  class EgressServer {
    var stacks: map<string, Device>
    var dns: map<string, string>
    var listening: bool

    constructor ()
      ensures stacks == map[] && dns == map[] && !listening
    {
      stacks, dns, listening := map[], map[], false;
    }

    method SetStack(tag: string, dev: Device, norm: string)
      modifies this`stacks, this`dns
      ensures stacks == old(stacks)[tag := dev]
      ensures dns == Put(old(dns), tag, if norm == "" then None else Some(norm))
    {
      stacks := stacks[tag := dev];
      if norm != "" {
        dns := dns[tag := norm];
      } else {
        dns := dns - {tag};
      }
    }

    method DeleteStack(tag: string)
      modifies this`stacks, this`dns
      ensures stacks == old(stacks) - {tag} && dns == old(dns) - {tag}
    {
      stacks, dns := stacks - {tag}, dns - {tag};
    }

    method Listen(binds: bool) returns (ok: bool)
      modifies this`listening
      ensures listening == ok == (old(listening) || binds)
    {
      if !listening {
        listening := binds;
      }
      ok := listening;
    }

    method Close()
      modifies this`listening
      ensures !listening
    {
      listening := false;
    }
  }

  // ----- the manager

  /** The fields of the manager, the registry and the device host; `owner` is history: the tag
      a device was last made for. */
  datatype Fields = Fields(iface: map<string, Managed>, stacks: map<string, Device>, dns: map<string, string>,
                           next: Device, open: set<Device>, running: map<Device, string>, owner: map<Device, string>)

  /** Registered tags are the managed tags, with the same devices. */
  ghost predicate Agrees(f: Fields) {
    && f.stacks.Keys == f.iface.Keys
    && (forall t :: t in f.iface ==> f.stacks[t] == f.iface[t].dev)
    && (forall t :: t in f.dns ==> t in f.iface && f.dns[t] != "")
  }

  /** Every managed device is open and has one tag, and no other device is open. */
  ghost predicate Sound(f: Fields) {
    && (forall t :: t in f.iface ==> f.iface[t].dev in f.open && f.iface[t].dev in f.owner && f.owner[f.iface[t].dev] == t)
    && (forall d :: d in f.open ==> d in f.owner && f.owner[d] in f.iface && f.iface[f.owner[d]].dev == d)
    && (forall d :: d in f.open ==> d < f.next)
    && (forall d :: d in f.open ==> d in f.running)
  }

  ghost function ViewOf(f: Fields): View
    requires Sound(f)
  {
    map t | t in f.iface ::
      Tunnel(f.iface[t].dev, f.iface[t].conf, f.iface[t].fp, DnsOf(f.dns, t), f.running[f.iface[t].dev])
  }

  /** A tag leaves: its device is closed and its registration goes. */
  function Dropped(f: Fields, t: string): Fields
    requires t in f.iface
  {
    f.(iface := f.iface - {t}, stacks := f.stacks - {t}, dns := f.dns - {t}, open := f.open - {f.iface[t].dev})
  }

  /** A tag is set to a device that is open and its own. */
  function Placed(f: Fields, t: string, m: Managed, norm: string, run: string): Fields {
    f.(iface := f.iface[t := m], stacks := f.stacks[t := m.dev],
       dns := Put(f.dns, t, if norm == "" then None else Some(norm)),
       next := if m.dev < f.next then f.next else m.dev + 1,
       open := f.open + {m.dev}, running := f.running[m.dev := run], owner := f.owner[m.dev := t])
  }

  lemma ViewAt(f: Fields, t: string)
    requires Sound(f)
    ensures Get(ViewOf(f), t) == if t !in f.iface then None else
      Some(Tunnel(f.iface[t].dev, f.iface[t].conf, f.iface[t].fp, DnsOf(f.dns, t), f.running[f.iface[t].dev]))
    ensures t in f.iface ==> f.iface[t].dev in f.open && f.iface[t].dev < f.next && f.iface[t].dev in f.running
  {
  }

  lemma KeysOfView(f: Fields)
    requires Sound(f)
    ensures ViewOf(f).Keys == f.iface.Keys
  {
  }

  lemma DroppedKeeps(f: Fields, t: string)
    requires Agrees(f) && Sound(f) && t in f.iface
    ensures Agrees(Dropped(f, t)) && Sound(Dropped(f, t))
    ensures ViewOf(Dropped(f, t)) == ViewOf(f) - {t}
  {
    hide ViewOf;
    var g := Dropped(f, t);
    DroppedAgrees(f, t);
    forall u ensures Get(ViewOf(g), u) == Get(ViewOf(f) - {t}, u) {
      ViewAt(f, u);
      ViewAt(g, u);
    }
    SameEverywhere(ViewOf(g), ViewOf(f) - {t});
  }

  lemma DroppedAgrees(f: Fields, t: string)
    requires Agrees(f) && Sound(f) && t in f.iface
    ensures Agrees(Dropped(f, t)) && Sound(Dropped(f, t))
  {
  }

  /** A tag keeps its device, or gets a new one if it has none. */
  ghost predicate Placeable(f: Fields, t: string, m: Managed) {
    if t in f.iface then m.dev == f.iface[t].dev else m.dev >= f.next
  }

  lemma PlacedAgrees(f: Fields, t: string, m: Managed, norm: string, run: string)
    requires Agrees(f)
    ensures Agrees(Placed(f, t, m, norm, run))
  {
  }

  lemma PlacedSound(f: Fields, t: string, m: Managed, norm: string, run: string)
    requires Sound(f) && Placeable(f, t, m)
    ensures Sound(Placed(f, t, m, norm, run))
  {
  }

  lemma PlacedView(f: Fields, t: string, m: Managed, norm: string, run: string)
    requires Sound(f) && Placeable(f, t, m) && Sound(Placed(f, t, m, norm, run))
    ensures ViewOf(Placed(f, t, m, norm, run)) == ViewOf(f)[t := Tunnel(m.dev, m.conf, m.fp, norm, run)]
  {
    hide ViewOf;
    var g := Placed(f, t, m, norm, run);
    forall u ensures Get(ViewOf(g), u) == Get(ViewOf(f)[t := Tunnel(m.dev, m.conf, m.fp, norm, run)], u) {
      ViewAt(f, u);
      ViewAt(g, u);
      assert u in f.iface && u != t ==> f.iface[u].dev != m.dev;
    }
    SameEverywhere(ViewOf(g), ViewOf(f)[t := Tunnel(m.dev, m.conf, m.fp, norm, run)]);
  }

  lemma RunningKeeps(f: Fields, t: string, run: string)
    requires Agrees(f) && Sound(f) && t in f.iface
    ensures var g := f.(running := f.running[f.iface[t].dev := run]);
      Agrees(g) && Sound(g) && ViewOf(g) == ViewOf(f)[t := ViewOf(f)[t].(running := run)]
  {
  }

  lemma DiscardedKeeps(f: Fields, run: string)
    requires Agrees(f) && Sound(f)
    ensures f.next !in f.open
    ensures var g := f.(next := f.next + 1, running := f.running[f.next := run]);
      Agrees(g) && Sound(g) && ViewOf(g) == ViewOf(f)
  {
  }

  class Manager {
    var iface: map<string, Managed>
    const egress: EgressServer
    const host: Host
    ghost var owner: map<Device, string>

    ghost function Now(): Fields
      reads this, egress, host
    {
      Fields(iface, egress.stacks, egress.dns, host.next, host.open, host.running, owner)
    }

    ghost predicate Valid()
      reads this, egress, host
    {
      Agrees(Now()) && Sound(Now())
    }

    ghost function View(): View
      requires Valid()
      reads this, egress, host
    {
      ViewOf(Now())
    }

    constructor ()
      ensures Valid() && View() == map[] && fresh(egress) && fresh(host) && !egress.listening
    {
      iface, owner := map[], map[];
      egress := new EgressServer();
      host := new Host();
    }

    /** The three steps every removal takes. */
    method Drop(t: string)
      requires Valid() && t in iface
      modifies this`iface, egress`stacks, egress`dns, host`open
      ensures Now() == Dropped(old(Now()), t)
      ensures Valid() && View() == old(View()) - {t}
    {
      hide Agrees, Sound, ViewOf;
      DroppedKeeps(Now(), t);
      host.Close(iface[t].dev);
      egress.DeleteStack(t);
      iface := iface - {t};
    }

    /** SetStack after a device was made or configured for `t`. */
    method Place(t: string, m: Managed, norm: string, ghost f: Fields, ghost run: string)
      requires Agrees(f) && Sound(f) && Placeable(f, t, m)
      requires var g := Placed(f, t, m, norm, run);
        Now() == g.(iface := f.iface, stacks := f.stacks, dns := f.dns, owner := f.owner)
      modifies this, egress`stacks, egress`dns
      ensures Valid() && View() == ViewOf(f)[t := Tunnel(m.dev, m.conf, m.fp, norm, run)]
    {
      hide Agrees, Sound, ViewOf, Placeable;
      iface := iface[t := m];
      egress.SetStack(t, m.dev, norm);
      owner := owner[m.dev := t];
      assert Now() == Placed(f, t, m, norm, run);
      PlacedAgrees(f, t, m, norm, run);
      PlacedSound(f, t, m, norm, run);
      PlacedView(f, t, m, norm, run);
    }

    /** No-op or reconfigure in place. */
    method Reuse(w: Want, l: Luck) returns (ok: bool)
      requires Valid() && w.conf.Some? && w.tag in iface && iface[w.tag].fp == w.fp
      modifies this, egress`stacks, egress`dns, host`running
      ensures Valid()
      ensures View() == Put(old(View()), w.tag, After(Get(old(View()), w.tag), w, l, host.next))
      ensures ok == Succeeds(Get(old(View()), w.tag), w, l)
    {
      hide Agrees, Sound, ViewOf;
      ghost var f := Now();
      ViewAt(f, w.tag);
      var cur := iface[w.tag];
      if w.conf.value != cur.conf {
        host.IpcSet(cur.dev, w.conf.value, l.ipcSet, l.left);
        if !l.ipcSet {
          RunningKeeps(f, w.tag, l.left);
          return false;
        }
        cur := cur.(conf := w.conf.value);
      }
      assert host.open == f.open + {cur.dev};
      assert host.running == f.running[cur.dev := host.running[cur.dev]];
      Place(w.tag, cur, w.dns, f, host.running[cur.dev]);
      ok := true;
    }

    /** Close, forget and build anew. */
    method Rebuild(w: Want, l: Luck) returns (ok: bool)
      requires Valid() && w.conf.Some? && (w.tag in iface ==> iface[w.tag].fp != w.fp)
      modifies this, egress`stacks, egress`dns, host
      ensures Valid() && host.next >= old(host.next)
      ensures View() == Put(old(View()), w.tag, After(Get(old(View()), w.tag), w, l, old(host.next)))
      ensures ok == Succeeds(Get(old(View()), w.tag), w, l)
    {
      hide Agrees, Sound, ViewOf, Dropped, DnsOf;
      ViewAt(Now(), w.tag);
      if w.tag in iface {
        Drop(w.tag);
      }
      ghost var f := Now();
      ViewAt(f, w.tag);
      if !l.build {
        return false;
      }
      var made := host.New();
      host.IpcSet(made, w.conf.value, l.configure, l.left);
      assert host.running == f.running[made := if l.configure then w.conf.value else l.left];
      if !l.configure {
        host.Close(made);
        DiscardedKeeps(f, l.left);
        assert host.open == f.open;
        return false;
      }
      Place(w.tag, Managed(made, w.conf.value, w.fp), w.dns, f, w.conf.value);
      ok := true;
    }

    /** One desired outbound. `dev` is the device a rebuild would make. */
    method Ensure(w: Want, l: Luck) returns (ok: bool, ghost dev: Device)
      requires Valid()
      modifies this, egress`stacks, egress`dns, host
      ensures Valid() && dev == old(host.next) <= host.next
      ensures View() == Put(old(View()), w.tag, After(Get(old(View()), w.tag), w, l, dev))
      ensures ok == Succeeds(Get(old(View()), w.tag), w, l)
    {
      hide Agrees, Sound, ViewOf;
      ViewAt(Now(), w.tag);
      dev := host.next;
      if w.conf == None {
        ok := false;
      } else if w.tag in iface && iface[w.tag].fp == w.fp {
        ok := Reuse(w, l);
      } else {
        ok := Rebuild(w, l);
      }
    }

    method Remove(tag: string)
      requires Valid()
      modifies this, egress`stacks, egress`dns, host`open
      ensures Valid() && View() == old(View()) - {tag}
    {
      hide Agrees, Sound, ViewOf;
      ViewAt(Now(), tag);
      if tag in iface {
        Drop(tag);
      }
    }

    /** Stops every tag outside `keep`. */
    method Stop(keep: seq<string>)
      requires Valid()
      modifies this, egress`stacks, egress`dns, host`open
      ensures Valid() && View() == Only(old(View()), keep)
    {
      hide Agrees, Sound, ViewOf;
      var extra := set t | t in iface && t !in keep;
      ghost var v := View();
      KeysOfView(Now());
      while extra != {}
        invariant Valid() && View().Keys == iface.Keys
        invariant extra == set t | t in iface && t !in keep
        invariant forall t :: t in keep ==> Get(View(), t) == Get(v, t)
        decreases |extra|
      {
        var t :| t in extra;
        Drop(t);
        extra := extra - {t};
        KeysOfView(Now());
      }
      assert View() == Only(v, keep) by {
        assert forall t :: t in iface ==> t in extra || t in keep;
        assert forall t :: t in View() ==> t in keep && Get(View(), t) == Get(v, t);
        assert forall t :: t in v && t in keep ==> Get(View(), t) == Get(v, t);
      }
    }

    method StopAll()
      requires Valid()
      modifies this, egress, host`open
      ensures Valid() && View() == map[] && !egress.listening
    {
      hide Agrees, Sound, ViewOf;
      Stop([]);
      egress.Close();
    }

    /** Converges to `ws`; `binds` tells whether a listener could be bound. */
    method Reconcile(ws: seq<Want>, ls: seq<Luck>, binds: bool) returns (ghost devs: seq<Device>)
      requires Valid() && |ls| == |ws|
      modifies this, egress, host
      ensures Valid() && |devs| == |ws| && View() == Reconciled(old(View()), ws, ls, devs)
      ensures forall i :: 0 <= i < |ws| ==> old(host.next) <= devs[i] <= host.next
      ensures egress.listening <==> ws != [] && (old(egress.listening) || binds)
    {
      hide Agrees, Sound, ViewOf, Fold, After;
      devs := [];
      if ws == [] {
        StopAll();
        FoldNone(map[], Tags(ws), Outcome(ws, ls, devs));
        assert Only(old(View()), Tags(ws)) == map[];
        return;
      }
      var _ := egress.Listen(binds);
      Stop(Tags(ws));
      ghost var kept := View();
      FoldNone(kept, Tags(ws), Outcome(ws, ls, devs));
      for i := 0 to |ws|
        invariant Valid() && |devs| == i && host.next >= old(host.next)
        invariant egress.listening <==> old(egress.listening) || binds
        invariant forall j :: 0 <= j < i ==> old(host.next) <= devs[j] <= host.next
        invariant View() == Fold(kept, Tags(ws), Outcome(ws, ls, devs), i)
      {
        ghost var before := View();
        var _, dev := Ensure(ws[i], ls[i]);
        FoldSame(kept, Tags(ws), Outcome(ws, ls, devs), Outcome(ws, ls, devs + [dev]), i);
        devs := devs + [dev];
        FoldStep(kept, Tags(ws), Outcome(ws, ls, devs), i);
      }
    }
  }

  // ----- what Reconcile means, for distinct tags

  /** `r` is what Reconcile leaves of `v`. */
  ghost predicate Leads(v: View, ws: seq<Want>, ls: seq<Luck>, devs: seq<Device>, r: View) {
    |ls| == |ws| == |devs| && Distinct(Tags(ws)) && r == Reconciled(v, ws, ls, devs)
  }

  /** The devices a rebuild may use are new. */
  ghost predicate NewTo(v: View, devs: seq<Device>) {
    forall t, i :: t in v && 0 <= i < |devs| ==> v[t].dev != devs[i]
  }

  /** Each desired tag ends as its own ensureLocked leaves it, whatever becomes of the others;
      a tag that is not desired is gone. */
  lemma EachAlone(v: View, ws: seq<Want>, ls: seq<Luck>, devs: seq<Device>, r: View)
    requires Leads(v, ws, ls, devs, r)
    ensures forall i :: 0 <= i < |ws| ==> Get(r, ws[i].tag) == After(Get(v, ws[i].tag), ws[i], ls[i], devs[i])
    ensures forall t :: t !in Tags(ws) ==> Get(r, t) == None
  {
    hide After, Fold;
    var kept := Only(v, Tags(ws));
    forall i | 0 <= i < |ws| ensures Get(r, ws[i].tag) == After(Get(v, ws[i].tag), ws[i], ls[i], devs[i]) {
      FoldAt(kept, Tags(ws), Outcome(ws, ls, devs), |ws|, i);
      assert Tags(ws)[i] in Tags(ws);
      assert Get(kept, ws[i].tag) == Get(v, ws[i].tag);
    }
    forall t | t !in Tags(ws) ensures Get(r, t) == None {
      FoldElsewhere(kept, Tags(ws), Outcome(ws, ls, devs), |ws|, t);
    }
  }

  /** A tag whose step succeeds has the wanted config, fingerprint and DNS server, and keeps
      its device exactly when the fingerprint was already the wanted one. */
  lemma Converged(v: View, ws: seq<Want>, ls: seq<Luck>, devs: seq<Device>, r: View, i: nat)
    requires Leads(v, ws, ls, devs, r) && NewTo(v, devs)
    requires i < |ws| && Succeeds(Get(v, ws[i].tag), ws[i], ls[i])
    ensures ws[i].tag in r && Some(r[ws[i].tag].conf) == ws[i].conf
    ensures r[ws[i].tag].fp == ws[i].fp && r[ws[i].tag].dns == ws[i].dns
    ensures ws[i].tag in v ==> (r[ws[i].tag].dev == v[ws[i].tag].dev <==> v[ws[i].tag].fp == ws[i].fp)
  {
    EachAlone(v, ws, ls, devs, r);
    assert Get(r, ws[i].tag) == After(Get(v, ws[i].tag), ws[i], ls[i], devs[i]);
  }

  /** After a successful step the device really runs the wanted config, except in one case: the
      config recorded for it was already the wanted one (so nothing was applied) but an earlier
      IpcSet failed half-way and left something else running. */
  lemma RunsWantedIff(v: View, ws: seq<Want>, ls: seq<Luck>, devs: seq<Device>, r: View, i: nat)
    requires Leads(v, ws, ls, devs, r)
    requires i < |ws| && Succeeds(Get(v, ws[i].tag), ws[i], ls[i])
    ensures ws[i].tag in r
    ensures r[ws[i].tag].running == ws[i].conf.value <==>
      !(ws[i].tag in v && v[ws[i].tag].fp == ws[i].fp && v[ws[i].tag].conf == ws[i].conf.value &&
        v[ws[i].tag].running != v[ws[i].tag].conf)
  {
    EachAlone(v, ws, ls, devs, r);
    assert Get(r, ws[i].tag) == After(Get(v, ws[i].tag), ws[i], ls[i], devs[i]);
  }

  /** The case above arises: a failed change followed by a change back. */
  lemma HalfAppliedSurvives(dev: Device)
    ensures var v: View := map["t" := Tunnel(dev, "a", "f", "", "a")];
      var failed := Reconciled(v, [Want("t", Some("b"), "f", "")], [Luck(false, "ab", true, true)], [dev + 1]);
      var back := Reconciled(failed, [Want("t", Some("a"), "f", "")], [Luck(true, "", true, true)], [dev + 2]);
      "t" in back && back["t"].conf == "a" && back["t"].running == "ab"
  {
    var v: View := map["t" := Tunnel(dev, "a", "f", "", "a")];
    var ws, ls := [Want("t", Some("b"), "f", "")], [Luck(false, "ab", true, true)];
    EachAlone(v, ws, ls, [dev + 1], Reconciled(v, ws, ls, [dev + 1]));
    var failed := Reconciled(v, ws, ls, [dev + 1]);
    assert Get(failed, ws[0].tag) == Some(Tunnel(dev, "a", "f", "", "ab"));
    var ws2, ls2 := [Want("t", Some("a"), "f", "")], [Luck(true, "", true, true)];
    EachAlone(failed, ws2, ls2, [dev + 2], Reconciled(failed, ws2, ls2, [dev + 2]));
    assert Get(Reconciled(failed, ws2, ls2, [dev + 2]), ws2[0].tag) == Some(Tunnel(dev, "a", "f", "", "ab"));
  }

  /** What a failed step leaves: a tag that could not be rendered or reconfigured keeps its
      entry; one that could not be rebuilt has none. */
  lemma FailedStep(v: View, ws: seq<Want>, ls: seq<Luck>, devs: seq<Device>, r: View, i: nat)
    requires Leads(v, ws, ls, devs, r)
    requires i < |ws| && !Succeeds(Get(v, ws[i].tag), ws[i], ls[i])
    ensures ws[i].tag in r <==> ws[i].tag in v && (ws[i].conf == None || v[ws[i].tag].fp == ws[i].fp)
    ensures ws[i].tag in r ==>
      r[ws[i].tag] == v[ws[i].tag].(running := r[ws[i].tag].running)
  {
    EachAlone(v, ws, ls, devs, r);
    assert Get(r, ws[i].tag) == After(Get(v, ws[i].tag), ws[i], ls[i], devs[i]);
  }

  /** Once every step has succeeded, doing it again changes nothing, however the device calls
      would turn out: none is made. */
  lemma Settled(v: View, ws: seq<Want>, ls: seq<Luck>, devs: seq<Device>, r: View, ls2: seq<Luck>, devs2: seq<Device>)
    requires Leads(v, ws, ls, devs, r) && NewTo(v, devs) && |ls2| == |devs2| == |ws|
    requires forall i :: 0 <= i < |ws| ==> Succeeds(Get(v, ws[i].tag), ws[i], ls[i])
    ensures Reconciled(r, ws, ls2, devs2) == r
  {
    hide Reconciled, After, Succeeds;
    var again := Reconciled(r, ws, ls2, devs2);
    EachAlone(v, ws, ls, devs, r);
    EachAlone(r, ws, ls2, devs2, again);
    forall t ensures Get(again, t) == Get(r, t) {
      if t in Tags(ws) {
        var i :| 0 <= i < |ws| && Tags(ws)[i] == t;
        Converged(v, ws, ls, devs, r, i);
        NoOp(r[t], ws[i], ls2[i], devs2[i]);
      }
    }
    SameEverywhere(again, r);
  }

  lemma NoOp(cur: Tunnel, w: Want, l: Luck, dev: Device)
    requires w.conf == Some(cur.conf) && w.fp == cur.fp && w.dns == cur.dns
    ensures After(Some(cur), w, l, dev) == Some(cur)
  {
  }
}
