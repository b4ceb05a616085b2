/** The access-log ingestion protocol: poll, bounded queue, batch, transactional commit with a
    durable cursor, crash and restart, over one append-only file. */
module AccessLogIngest {
  import opened Text
  import opened AccessLogLines

  /** The fields of a MetadataEvent that an access-log line fills in. */
  datatype Metadata = Metadata(observedAt: int, email: string, domain: string, destinationIP: string,
                               port: int, protocol: string, sessionKey: string)

  /** The SHA-256 digest of these four values, taken as injective. */
  datatype Key = Key(identity: string, generation: int, end: nat, line: Bytes)

  datatype Event = Event(key: Key, meta: Metadata)

  /** The generation while a file is only ever appended to: 0 from the first start, from every
      cursor stored since, and from every start without a cursor. */
  const GENERATION: int := 0

  /** What is fixed while one file is tailed; `parse` is ParseAccessLog followed by `destination`. */
  datatype Env = Env(identity: string, parse: Bytes -> Option<Metadata>, queueSize: nat, batchSize: nat)

  function Normalize(env: Env, r: Record): Option<Event> {
    match env.parse(r.line)
    case None => None
    case Some(m) => if m.domain == "" && m.destinationIP == "" then None
      else Some(Event(Key(env.identity, GENERATION, r.end, r.line), m))
  }

  /** MetadataEvent.Validate; source, provenance and confidence are constants here. */
  predicate Valid(e: Event) {
    && e.meta.observedAt > 0
    && !(e.meta.domain == "" && e.meta.destinationIP == "")
    && 0 <= e.meta.port <= 65535
  }

  /** The parseable records, in order. */
  function Events(env: Env, rs: seq<Record>): seq<Event> {
    if rs == [] then [] else
      var front := Events(env, rs[..|rs| - 1]);
      match Normalize(env, rs[|rs| - 1])
      case None => front
      case Some(e) => front + [e]
  }

  predicate HasKey(rows: seq<Event>, k: Key) {
    exists i :: 0 <= i < |rows| && rows[i].key == k
  }

  /** INSERT ... ON CONFLICT (event_key) DO NOTHING */
  function InsertNew(rows: seq<Event>, e: Event): seq<Event> {
    if HasKey(rows, e.key) then rows else rows + [e]
  }

  function InsertAll(rows: seq<Event>, es: seq<Event>): seq<Event> {
    if es == [] then rows else InsertNew(InsertAll(rows, es[..|es| - 1]), es[|es| - 1])
  }

  predicate AllValid(es: seq<Event>) {
    forall i :: 0 <= i < |es| ==> Valid(es[i])
  }

  // ----- what an event is, told from the line alone

  /** The line, ending at `end`, parses and names a domain or an address; `e` is its event. */
  ghost predicate Makes(env: Env, line: Bytes, end: nat, e: Event) {
    && env.parse(line) == Some(e.meta) && (e.meta.domain != "" || e.meta.destinationIP != "")
    && e.key == Key(env.identity, 0, end, line)
  }

  ghost predicate Parses(env: Env, r: Record) {
    exists e :: Makes(env, r.line, r.end, e)
  }

  ghost predicate MadeBy(env: Env, rs: seq<Record>, e: Event) {
    exists i :: 0 <= i < |rs| && Makes(env, rs[i].line, rs[i].end, e)
  }

  /** Every line that parses is stored, new rows come from nowhere else, each once, and what was
      stored before stays as it was. */
  ghost predicate Flushed(env: Env, rs: seq<Record>, before: seq<Event>, after: seq<Event>) {
    && before <= after
    && (forall e :: MadeBy(env, rs, e) ==> e in after || HasKey(before, e.key))
    && (forall i :: |before| <= i < |after| ==> MadeBy(env, rs, after[i]) && !HasKey(before, after[i].key))
    && (forall i, j :: |before| <= i < j < |after| ==> after[i].key != after[j].key)
  }

  /** What the database accepts of them. */
  ghost predicate Acceptable(env: Env, rs: seq<Record>) {
    forall e :: MadeBy(env, rs, e) ==> e.meta.observedAt > 0 && 0 <= e.meta.port <= 65535
  }

  /** The records no event comes from. */
  ghost function Malformed(env: Env, rs: seq<Record>): set<nat> {
    set i: nat | i < |rs| && !Parses(env, rs[i])
  }

  lemma NormalizeMakes(env: Env, r: Record)
    ensures forall e :: Makes(env, r.line, r.end, e) <==> Normalize(env, r) == Some(e)
    ensures Parses(env, r) <==> Normalize(env, r).Some?
  {
    assert Normalize(env, r).Some? ==> Makes(env, r.line, r.end, Normalize(env, r).value);
  }

  lemma {:induction false} EventsMade(env: Env, rs: seq<Record>)
    ensures forall e :: e in Events(env, rs) <==> MadeBy(env, rs, e)
    decreases |rs|
  {
    hide Normalize, Makes;
    if rs != [] {
      var front, last := rs[..|rs| - 1], rs[|rs| - 1];
      EventsMade(env, front);
      NormalizeMakes(env, last);
      forall e ensures MadeBy(env, rs, e) <==> MadeBy(env, front, e) || Makes(env, last.line, last.end, e) {
        if MadeBy(env, front, e) {
          var i :| 0 <= i < |front| && Makes(env, front[i].line, front[i].end, e);
          assert rs[i] == front[i];
        }
      }
    }
  }

  lemma {:induction false} InsertAllMeans(rows: seq<Event>, es: seq<Event>)
    ensures var all := InsertAll(rows, es);
      && rows <= all
      && (forall i :: 0 <= i < |es| ==> HasKey(all, es[i].key))
      && (forall i :: |rows| <= i < |all| ==> all[i] in es && !HasKey(rows, all[i].key))
      && (forall i, j :: |rows| <= i < j < |all| ==> all[i].key != all[j].key)
    decreases |es|
  {
    if es != [] {
      var front, last := es[..|es| - 1], es[|es| - 1];
      InsertAllMeans(rows, front);
      var some, all := InsertAll(rows, front), InsertAll(rows, es);
      assert forall i :: 0 <= i < |some| ==> all[i] == some[i];
      forall i | 0 <= i < |es| ensures HasKey(all, es[i].key) {
        if i < |front| {
          var j :| 0 <= j < |some| && some[j].key == front[i].key;
          assert all[j].key == es[i].key;
        } else if HasKey(some, last.key) {
          var j :| 0 <= j < |some| && some[j].key == last.key;
          assert all[j].key == es[i].key;
        } else {
          assert all[|some|].key == es[i].key;
        }
      }
    }
  }

  /** A key determines its line, and the line its event. */
  lemma SameKey(env: Env, rs: seq<Record>, a: Event, b: Event)
    requires MadeBy(env, rs, a) && MadeBy(env, rs, b) && a.key == b.key
    ensures a == b
  {
  }

  lemma FlushMeans(env: Env, rs: seq<Record>, rows: seq<Event>)
    ensures Flushed(env, rs, rows, InsertAll(rows, Events(env, rs)))
    ensures AllValid(Events(env, rs)) <==> Acceptable(env, rs)
  {
    hide Events, InsertAll, MadeBy;
    var es := Events(env, rs);
    var all := InsertAll(rows, es);
    EventsMade(env, rs);
    InsertAllMeans(rows, es);
    forall e | MadeBy(env, rs, e) ensures e in all || HasKey(rows, e.key) {
      var i :| 0 <= i < |es| && es[i] == e;
      var j :| 0 <= j < |all| && all[j].key == e.key;
      if j < |rows| {
        assert rows[j].key == e.key;
      } else {
        SameKey(env, rs, e, all[j]);
      }
    }
    forall e | MadeBy(env, rs, e) ensures Valid(e) <==> e.meta.observedAt > 0 && 0 <= e.meta.port <= 65535 {
      MadeNamed(env, rs, e);
    }
  }

  lemma NothingInserted(env: Env, rows: seq<Event>)
    ensures InsertAll(rows, Events(env, [])) == rows
  {
  }

  lemma MadeNamed(env: Env, rs: seq<Record>, e: Event)
    requires MadeBy(env, rs, e)
    ensures e.meta.domain != "" || e.meta.destinationIP != ""
  {
  }

  // ----- the code that writes

  /** The analytics tables behind GormRepository. */
  class Store {
    var rows: seq<Event>
    var cursor: Option<nat>

    constructor ()
      ensures rows == [] && cursor == None
    {
      rows, cursor := [], None;
    }

    /** One transaction: every event, then the cursor, or nothing. `fault` is a database error. */
    method CommitAccessLogBatch(events: seq<Event>, offset: nat, fault: bool) returns (ok: bool)
      modifies this
      ensures ok == (!fault && AllValid(events))
      ensures ok ==> rows == InsertAll(old(rows), events) && cursor == Some(offset)
      ensures !ok ==> rows == old(rows) && cursor == old(cursor)
    {
      var tx := rows;
      for i := 0 to |events|
        invariant AllValid(events[..i])
        invariant tx == InsertAll(rows, events[..i])
        invariant rows == old(rows) && cursor == old(cursor)
      {
        assert events[..i + 1][..i] == events[..i];
        if !Valid(events[i]) {
          return false;
        }
        tx := InsertNew(tx, events[i]);
      }
      assert events[..|events|] == events;
      if fault {
        return false;
      }
      rows, cursor := tx, Some(offset);
      return true;
    }
  }

  /** The persisting half of the Tailer with its counters. */
  class Worker {
    const store: Store
    var batch: seq<Record>
    var committed: nat
    var malformed: nat

    constructor (store: Store)
      ensures this.store == store && batch == [] && committed == 0 && malformed == 0
    {
      this.store := store;
      batch, committed, malformed := [], 0, 0;
    }

    /** The flush of `persist`: a failed commit keeps the batch, and its malformed lines stay
        counted. */
    method Flush(env: Env, fault: bool) returns (ok: bool)
      modifies this, store
      ensures ok <==> old(batch) == [] || (!fault && Acceptable(env, old(batch)))
      ensures ok <==> old(batch) == [] || (!fault && AllValid(Events(env, old(batch))))
      ensures ok ==> Flushed(env, old(batch), old(store.rows), store.rows)
      ensures malformed == old(malformed) + |Malformed(env, old(batch))|
      ensures old(batch) == [] ==>
        && store.rows == old(store.rows) && store.cursor == old(store.cursor)
        && batch == old(batch) && committed == old(committed)
      ensures ok && old(batch) != [] ==>
        && store.rows == InsertAll(old(store.rows), Events(env, old(batch)))
        && store.cursor == Some(old(batch)[|old(batch)| - 1].end)
        && batch == []
        && committed == old(committed) + |Events(env, old(batch))|
      ensures !ok ==>
        && store.rows == old(store.rows) && store.cursor == old(store.cursor)
        && batch == old(batch) && committed == old(committed)
    {
      hide Flushed, Acceptable, Malformed, AllValid, InsertAll, Normalize;
      FlushMeans(env, batch, store.rows);
      EventsAndBad(env, batch);
      if |batch| == 0 {
        NothingInserted(env, store.rows);
        return true;
      }
      var events: seq<Event> := [];
      for i := 0 to |batch|
        invariant batch == old(batch) && committed == old(committed)
        invariant events == Events(env, batch[..i])
        invariant malformed == old(malformed) + i - |events|
        invariant store.rows == old(store.rows) && store.cursor == old(store.cursor)
      {
        assert batch[..i + 1][..i] == batch[..i];
        match Normalize(env, batch[i])
        case None =>
          malformed := malformed + 1;
        case Some(e) =>
          events := events + [e];
      }
      assert batch[..|batch|] == batch;
      var last := batch[|batch| - 1];
      ok := store.CommitAccessLogBatch(events, last.end, fault);
      if !ok {
        return false;
      }
      committed := committed + |events|;
      batch := [];
    }

    /** The retry loop of `persist`: one flush per entry of `faults`, until one succeeds or the
        context ends. */
    method Retry(env: Env, faults: seq<bool>) returns (ok: bool)
      modifies this, store
      ensures ok <==> (old(batch) == [] && faults != []) || (Acceptable(env, old(batch)) && false in faults)
      ensures ok && old(batch) != [] ==>
        && Flushed(env, old(batch), old(store.rows), store.rows)
        && store.rows == InsertAll(old(store.rows), Events(env, old(batch)))
        && store.cursor == Some(old(batch)[|old(batch)| - 1].end)
        && batch == []
        && committed == old(committed) + |Events(env, old(batch))|
      ensures !ok || old(batch) == [] ==>
        && store.rows == old(store.rows) && store.cursor == old(store.cursor)
        && batch == old(batch) && committed == old(committed)
      ensures malformed == old(malformed) + Counted(env, old(batch), faults)
    {
      FlushMeans(env, batch, store.rows);
      for i := 0 to |faults|
        invariant batch == old(batch) && committed == old(committed)
        invariant store.rows == old(store.rows) && store.cursor == old(store.cursor)
        invariant i > 0 ==> batch != [] && !(Acceptable(env, batch) && false in faults[..i])
        invariant malformed + Counted(env, batch, faults[i..]) == old(malformed) + Counted(env, batch, faults)
      {
        assert faults[i..][0] == faults[i] && faults[i..][1..] == faults[i + 1..];
        assert faults[..i + 1] == faults[..i] + [faults[i]];
        ok := Flush(env, faults[i]);
        if ok {
          return true;
        }
      }
      assert faults[..|faults|] == faults;
      return false;
    }
  }

  // ----- the counter of malformed lines

  lemma {:induction false} EventsAndBad(env: Env, rs: seq<Record>)
    ensures |Events(env, rs)| + |Malformed(env, rs)| == |rs|
    decreases |rs|
  {
    hide Normalize, Parses;
    if rs != [] {
      var n := |rs| - 1;
      EventsAndBad(env, rs[..n]);
      NormalizeMakes(env, rs[n]);
      var before := Malformed(env, rs[..n]);
      assert Malformed(env, rs) == if Parses(env, rs[n]) then before else before + {n};
    }
  }

  /** What flushing `rs` until it succeeds adds to the counter. */
  ghost function Counted(env: Env, rs: seq<Record>, faults: seq<bool>): nat {
    if faults == [] then 0 else
      |Malformed(env, rs)| + if rs == [] || (!faults[0] && Acceptable(env, rs)) then 0 else Counted(env, rs, faults[1..])
  }

  /** With `n` failed commits before the one that succeeds, each malformed line of the batch is
      counted n + 1 times; so the counter is right exactly when no commit failed or the batch has
      no malformed line. */
  lemma {:induction false} MalformedRightIff(env: Env, rs: seq<Record>, faults: seq<bool>, n: nat)
    requires n < |faults| && !faults[n] && forall k :: 0 <= k < n ==> faults[k]
    requires Acceptable(env, rs)
    ensures Counted(env, rs, faults) == (n + 1) * |Malformed(env, rs)|
    ensures Counted(env, rs, faults) == |Malformed(env, rs)| <==>
      n == 0 || forall i :: 0 <= i < |rs| ==> Parses(env, rs[i])
    decreases n
  {
    hide Parses, Acceptable, Malformed;
    var m := |Malformed(env, rs)|;
    NoneMalformed(env, rs);
    assert n > 0 && m > 0 ==> (n + 1) * m == n * m + m > m;
    if n > 0 && rs != [] { MalformedRightIff(env, rs, faults[1..], n - 1); }
  }

  lemma NoneMalformed(env: Env, rs: seq<Record>)
    ensures |Malformed(env, rs)| == 0 <==> forall i :: 0 <= i < |rs| ==> Parses(env, rs[i])
  {
    hide Parses;
    if i :| 0 <= i < |rs| && !Parses(env, rs[i]) { assert i in Malformed(env, rs); }
  }

  /** One line that does not parse and one failed commit: it is counted twice. */
  lemma CountedTwice(env: Env, r: Record)
    requires env.parse(r.line) == None
    ensures Malformed(env, [r]) == {0} && Counted(env, [r], [true, false]) == 2
  {
    assert [r][0] == r && !Parses(env, r);
    assert Malformed(env, [r]) == {0};
    assert [true, false][1..] == [false];
  }

  // ----- the protocol

  /** `acked` and `high` are history: where the records in flight start, and the highest
      cursor ever committed. */
  datatype State = State(
    file: Bytes,
    rows: seq<Event>, cursor: Option<nat>, high: nat,
    up: bool, offset: nat, pending: Bytes, outbox: seq<Record>,
    queue: seq<Record>, batch: seq<Record>, acked: nat)

  datatype Step =
    | Append(more: Bytes)
    | ReadFile
    | Enqueue
    | StopReader
    | Take
    | Commit(fault: bool)
    | Restart(loaded: bool)

  predicate Enabled(env: Env, s: State, step: Step) {
    match step
    case Append(_) => true
    case ReadFile => s.up && s.outbox == [] && s.offset <= |s.file|
    case Enqueue => s.up && s.outbox != [] && |s.queue| < env.queueSize
    case StopReader => s.up
    case Take => s.queue != [] && |s.batch| < env.batchSize
    case Commit(_) => s.batch != []
    case Restart(_) => true
  }

  function Next(env: Env, s: State, step: Step): State
    requires Enabled(env, s, step)
  {
    match step
    case Append(more) => s.(file := s.file + more)
    case ReadFile =>
      var p := Poll(s.file, s.offset, s.pending);
      s.(outbox := p.records, pending := p.partial, offset := if p.records == [] then p.next else s.offset)
    case Enqueue =>
      s.(queue := s.queue + [s.outbox[0]], offset := s.outbox[0].end, outbox := s.outbox[1..])
    case StopReader => s.(up := false, outbox := [])
    case Take => s.(batch := s.batch + [s.queue[0]], queue := s.queue[1..])
    case Commit(fault) =>
      var es := Events(env, s.batch);
      if fault || !AllValid(es) then s else
        var e := s.batch[|s.batch| - 1].end;
        s.(rows := InsertAll(s.rows, es), cursor := Some(e), batch := [], acked := e, high := if s.high < e then e else s.high)
    case Restart(loaded) =>
      // A failed load starts over from offset 0 with an empty cursor.
      var from := if loaded && s.cursor.Some? then s.cursor.value else 0;
      s.(up := true, offset := from, pending := [], outbox := [], queue := [], batch := [], acked := from)
  }

  /** The commit step does to the stored rows, the cursor and the batch what a flush does. */
  lemma CommitIsFlush(env: Env, s: State, fault: bool)
    requires Enabled(env, s, Commit(fault))
    ensures var t := Next(env, s, Commit(fault));
      if fault || !Acceptable(env, s.batch) then t == s
      else
        && Flushed(env, s.batch, s.rows, t.rows)
        && t.cursor == Some(s.batch[|s.batch| - 1].end) && t.batch == []
        && t.file == s.file && t.up == s.up && t.offset == s.offset && t.pending == s.pending
        && t.outbox == s.outbox && t.queue == s.queue
  {
    hide Flushed, Acceptable, AllValid;
    FlushMeans(env, s.batch, s.rows);
  }

  function Start(file: Bytes): State {
    State(file, [], None, 0, true, 0, [], [], [], [], 0)
  }

  /** Every step of the run is enabled, and every poll satisfies `ok`. */
  ghost predicate Run(env: Env, s: State, steps: seq<Step>, t: State, faithful: bool)
    decreases |steps|
  {
    if steps == [] then s == t else
      && Enabled(env, s, steps[0])
      && (steps[0].ReadFile? ==> if faithful then Faithful(s.pending, s.file, s.offset) else FitAfter(s.pending, s.file, s.offset))
      && Run(env, Next(env, s, steps[0]), steps[1..], t, faithful)
  }

  // ----- invariants

  function EndOf(s: State): nat {
    if s.outbox == [] then s.offset else s.outbox[|s.outbox| - 1].end
  }

  /** The stored rows are the parseable lines up to `high`, once each; what is in flight is the
      lines from `acked` to the reader's offset, and what is being sent continues from there. */
  ghost predicate Inv(env: Env, s: State) {
    && Boundary(s.file, s.high) && Boundary(s.file, s.acked) && Boundary(s.file, s.offset) && Boundary(s.file, EndOf(s))
    && s.acked <= s.high && s.acked <= s.offset <= EndOf(s)
    && s.rows == Events(env, Lines(s.file, 0, s.high))
    && (s.cursor.Some? ==> s.cursor.value <= s.high && Boundary(s.file, s.cursor.value))
    && (s.cursor.None? ==> s.high == 0)
    && s.batch + s.queue == Lines(s.file, s.acked, s.offset)
    && s.outbox == Lines(s.file, s.offset, EndOf(s))
    && (s.up ==> Carried(s.pending, s.file, EndOf(s))) && (!s.up ==> s.outbox == [])
    && |s.queue| <= env.queueSize && |s.batch| <= env.batchSize
  }

  lemma {:induction false} EventsConcat(env: Env, a: seq<Record>, b: seq<Record>)
    ensures Events(env, a + b) == Events(env, a) + Events(env, b)
    decreases |b|
  {
    if b == [] {
      assert a + b == a;
    } else {
      assert (a + b)[..|a + b| - 1] == a + b[..|b| - 1];
      EventsConcat(env, a, b[..|b| - 1]);
    }
  }

  lemma {:induction false} InsertAllConcat(rows: seq<Event>, a: seq<Event>, b: seq<Event>)
    ensures InsertAll(rows, a + b) == InsertAll(InsertAll(rows, a), b)
    decreases |b|
  {
    if b == [] {
      assert a + b == a;
    } else {
      assert (a + b)[..|a + b| - 1] == a + b[..|b| - 1];
      InsertAllConcat(rows, a, b[..|b| - 1]);
    }
  }

  /** End offsets in (lo, hi], strictly increasing. */
  ghost predicate Within(es: seq<Event>, lo: nat, hi: nat) {
    && (forall i :: 0 <= i < |es| ==> lo < es[i].key.end <= hi)
    && (forall i, j :: 0 <= i < j < |es| ==> es[i].key.end < es[j].key.end)
  }

  /** Every event of a list of records carries the end offset of one of them. */
  lemma {:induction false} EventEnds(env: Env, file: Bytes, lo: nat, hi: nat)
    requires lo <= hi <= |file|
    ensures Within(Events(env, Lines(file, lo, hi)), lo, hi)
    decreases hi
  {
    hide Normalize, LineAt, Events, Lines, Within;
    LinesStep(env, file, lo, hi);
    if lo < hi {
      EventEnds(env, file, lo, hi - 1);
      var es := Events(env, Lines(file, lo, hi - 1));
      WithinWider(es, lo, hi);
      if file[hi - 1] == LF {
        var r := LineAt(file, hi - 1);
        EventsPush(env, Lines(file, lo, hi - 1), r);
        NormalizeEnd(env, r);
        LineAtEnd(file, hi - 1);
        if Normalize(env, r).Some? { WithinPush(es, Normalize(env, r).value, lo, hi); }
      }
    }
  }

  lemma LinesStep(env: Env, file: Bytes, lo: nat, hi: nat)
    requires lo <= hi <= |file|
    ensures lo == hi ==> Events(env, Lines(file, lo, hi)) == [] && Within([], lo, hi)
    ensures lo < hi && file[hi - 1] == LF ==> Lines(file, lo, hi) == Lines(file, lo, hi - 1) + [LineAt(file, hi - 1)]
    ensures lo < hi && file[hi - 1] != LF ==> Lines(file, lo, hi) == Lines(file, lo, hi - 1)
  {
  }

  lemma WithinWider(es: seq<Event>, lo: nat, hi: nat)
    requires 0 < hi && Within(es, lo, hi - 1)
    ensures Within(es, lo, hi)
  {
  }

  lemma WithinPush(es: seq<Event>, e: Event, lo: nat, hi: nat)
    requires lo < hi && Within(es, lo, hi - 1) && e.key.end == hi
    ensures Within(es + [e], lo, hi)
  {
  }

  lemma EventsPush(env: Env, rs: seq<Record>, r: Record)
    ensures Events(env, rs + [r]) == match Normalize(env, r)
      case None => Events(env, rs)
      case Some(e) => Events(env, rs) + [e]
  {
    assert (rs + [r])[..|rs|] == rs;
  }

  lemma NormalizeEnd(env: Env, r: Record)
    ensures Normalize(env, r).Some? ==> Normalize(env, r).value.key.end == r.end
  {
  }

  lemma LineAtEnd(file: Bytes, k: nat)
    requires k < |file|
    ensures LineAt(file, k).end == k + 1
  {
  }

  ghost predicate AllStored(rows: seq<Event>, es: seq<Event>) {
    forall i :: 0 <= i < |es| ==> HasKey(rows, es[i].key)
  }

  /** Re-committing lines that are already stored changes nothing. */
  lemma {:induction false} InsertOld(rows: seq<Event>, es: seq<Event>)
    requires AllStored(rows, es)
    ensures InsertAll(rows, es) == rows
    decreases |es|
  {
    if es != [] {
      InsertOld(rows, es[..|es| - 1]);
    }
  }

  /** Lines beyond all stored ones are appended in order. */
  lemma {:induction false} InsertFresh(rows: seq<Event>, es: seq<Event>, n: nat, m: nat)
    requires Within(rows, 0, n) && Within(es, n, m)
    ensures InsertAll(rows, es) == rows + es
    decreases |es|
  {
    if es != [] {
      var front, last := es[..|es| - 1], es[|es| - 1];
      InsertFresh(rows, front, n, m);
      assert !HasKey(rows + front, last.key) by {
        forall i | 0 <= i < |rows + front| ensures (rows + front)[i].key.end < last.key.end {
          assert i >= |rows| ==> (rows + front)[i] == es[i - |rows|];
        }
      }
      assert rows + front + [last] == rows + es;
    }
  }

  /** The heart of the protocol: committing the lines of [lo, e) on top of the lines up to
      `high`, with lo <= high, stores the lines up to the larger of the two ends. */
  lemma CommitExtends(env: Env, file: Bytes, lo: nat, e: nat, high: nat)
    requires lo <= high <= |file| && lo <= e <= |file|
    ensures InsertAll(Events(env, Lines(file, 0, high)), Events(env, Lines(file, lo, e)))
      == Events(env, Lines(file, 0, if high < e then e else high))
  {
    hide Lines, Normalize;
    var rows := Events(env, Lines(file, 0, high));
    var mid := if high < e then high else e;
    Stored(env, file, lo, mid, high);
    var known := Events(env, Lines(file, lo, mid));
    InsertOld(rows, known);
    if high < e {
      LinesSplit(file, lo, high, e);
      LinesSplit(file, 0, high, e);
      var beyond := Events(env, Lines(file, high, e));
      EventsConcat(env, Lines(file, lo, high), Lines(file, high, e));
      EventsConcat(env, Lines(file, 0, high), Lines(file, high, e));
      InsertAllConcat(rows, known, beyond);
      EventEnds(env, file, 0, high);
      EventEnds(env, file, high, e);
      InsertFresh(rows, beyond, high, e);
    }
  }

  lemma Stored(env: Env, file: Bytes, lo: nat, mid: nat, high: nat)
    requires lo <= mid <= high <= |file|
    ensures AllStored(Events(env, Lines(file, 0, high)), Events(env, Lines(file, lo, mid)))
  {
    hide Lines, Events, Normalize;
    LinesSplit(file, 0, lo, high);
    LinesSplit(file, lo, mid, high);
    var a, b, c := Lines(file, 0, lo), Lines(file, lo, mid), Lines(file, mid, high);
    EventsConcat(env, a, b + c);
    EventsConcat(env, b, c);
    var rows, es := Events(env, Lines(file, 0, high)), Events(env, b);
    forall i | 0 <= i < |es| ensures HasKey(rows, es[i].key) {
      assert rows[|Events(env, a)| + i] == es[i];
    }
  }

  lemma StartInv(env: Env, file: Bytes)
    ensures Inv(env, Start(file))
  {
  }

  lemma AppendKeeps(env: Env, s: State, more: Bytes)
    requires Inv(env, s)
    ensures Inv(env, s.(file := s.file + more))
  {
    hide Lines, Events;
    LinesGrow(s.file, more, 0, s.high);
    LinesGrow(s.file, more, s.acked, s.offset);
    LinesGrow(s.file, more, s.offset, EndOf(s));
  }

  lemma ReadKeeps(env: Env, s: State)
    requires Inv(env, s) && Enabled(env, s, ReadFile) && Faithful(s.pending, s.file, s.offset)
    ensures Inv(env, Next(env, s, ReadFile))
  {
    hide Lines, Events, Poll, Faithful;
    var p := Poll(s.file, s.offset, s.pending);
    PollContentIff(s.file, s.offset, s.pending);
    FaithfulFits(s.file, s.offset, s.pending);
    CarriedKept(s.file, s.offset, s.pending, []);
    PollEnd(s.file, s.offset, s.pending);
  }

  /** After a faithful poll the records end at the start of the unterminated line. */
  lemma PollEnd(file: Bytes, offset: nat, pending: Bytes)
    requires Boundary(file, offset) && Carried(pending, file, offset) && Faithful(pending, file, offset)
    ensures var p, last := Poll(file, offset, pending), LineStart(file, |file|);
      && offset <= last
      && p.next == last
      && Lines(file, offset, last) == Lines(file, offset, |file|) == p.records
      && (p.records == [] ==> last == offset)
      && (p.records != [] ==> p.records[|p.records| - 1].end == last)
  {
    hide TurnOf, Lines, LineStart;
    PollContentIff(file, offset, pending);
    var last := LineStart(file, |file|);
    if FindLF(file, offset) == |file| {
      NoMoreLines(file, offset);
      TurnTail(file, Reader(offset, offset, pending, |pending|));
      NoLines(file, offset, offset);
    } else {
      ScanWhole(file, offset, 0);
      LastLine(file, offset);
    }
  }

  lemma LastLine(file: Bytes, offset: nat)
    requires Boundary(file, offset) && FindLF(file, offset) < |file|
    ensures var all, last := Lines(file, offset, |file|), LineStart(file, |file|);
      && offset < last && all != [] && all[|all| - 1].end == last && Lines(file, offset, last) == all
  {
    var last := LineStart(file, |file|);
    NextLine(file, offset);
    NoLines(file, last, |file|);
    LinesSplit(file, offset, last, |file|);
  }

  lemma EnqueueKeeps(env: Env, s: State)
    requires Inv(env, s) && Enabled(env, s, Enqueue)
    ensures Inv(env, Next(env, s, Enqueue))
  {
    hide Lines, Events, Carried;
    var e := s.outbox[0].end;
    LinesCut(s.file, s.offset, EndOf(s), 1);
    LinesSplit(s.file, s.acked, s.offset, e);
    assert s.outbox[..1] == [s.outbox[0]];
    var t := Next(env, s, Enqueue);
    assert t.batch + t.queue == (s.batch + s.queue) + [s.outbox[0]];
    assert EndOf(t) == EndOf(s);
  }

  lemma WorkerKeeps(env: Env, s: State, step: Step)
    requires Inv(env, s) && Enabled(env, s, step) && (step.Take? || step.StopReader?)
    ensures Inv(env, Next(env, s, step))
  {
    hide Events, Carried, Lines, InsertAll, Poll;
    var t := Next(env, s, step);
    NoLines(s.file, t.offset, t.offset);
    if step.Take? {
      assert t.batch + t.queue == s.batch + s.queue;
    }
  }

  lemma RestartKeeps(env: Env, s: State, loaded: bool)
    requires Inv(env, s)
    ensures Inv(env, Next(env, s, Restart(loaded)))
  {
    hide Events, Carried, Lines, InsertAll, Poll;
    var t := Next(env, s, Restart(loaded));
    NoLines(s.file, t.offset, t.offset);
    EmptyCarried(s.file, t.offset);
  }

  lemma EmptyCarried(file: Bytes, offset: nat)
    ensures Carried([], file, offset)
  {
  }

  lemma CommitKeeps(env: Env, s: State, fault: bool)
    requires Inv(env, s) && Enabled(env, s, Commit(fault))
    ensures Inv(env, Next(env, s, Commit(fault)))
  {
    hide Lines, Events, InsertAll, Carried;
    var all := Lines(s.file, s.acked, s.offset);
    var k := |s.batch|;
    assert all[..k] == s.batch && all[k..] == s.queue;
    LinesCut(s.file, s.acked, s.offset, k);
    CommitExtends(env, s.file, s.acked, s.batch[k - 1].end, s.high);
  }

  lemma StepKeeps(env: Env, s: State, step: Step)
    requires Inv(env, s) && Enabled(env, s, step)
    requires step.ReadFile? ==> Faithful(s.pending, s.file, s.offset)
    ensures Inv(env, Next(env, s, step))
  {
    hide Inv, Faithful;
    match step
    case Append(more) => AppendKeeps(env, s, more);
    case ReadFile => ReadKeeps(env, s);
    case Enqueue => EnqueueKeeps(env, s);
    case Commit(fault) => CommitKeeps(env, s, fault);
    case Restart(loaded) => RestartKeeps(env, s, loaded);
    case _ => WorkerKeeps(env, s, step);
  }

  lemma {:induction false} RunKeeps(env: Env, s: State, steps: seq<Step>, t: State)
    requires Inv(env, s) && Run(env, s, steps, t, true)
    ensures Inv(env, t)
    decreases |steps|
  {
    hide Inv, Faithful;
    if steps != [] {
      StepKeeps(env, s, steps[0]);
      RunKeeps(env, Next(env, s, steps[0]), steps[1..], t);
    }
  }

  ghost predicate NoFailedLoad(steps: seq<Step>) {
    forall i :: 0 <= i < |steps| ==> steps[i] != Restart(false)
  }

  function CursorOf(s: State): nat {
    if s.cursor.Some? then s.cursor.value else 0
  }

  /** As long as no restart failed to load it, the cursor is the high-water mark. */
  lemma {:induction false} CursorIsHigh(env: Env, s: State, steps: seq<Step>, t: State)
    requires Inv(env, s) && Run(env, s, steps, t, true) && NoFailedLoad(steps)
    requires CursorOf(s) == s.high == s.acked
    ensures CursorOf(t) == t.high == t.acked
    decreases |steps|
  {
    hide Faithful, Events, InsertAll, Carried, Lines, Poll;
    if steps != [] {
      var u := Next(env, s, steps[0]);
      if steps[0].Commit? {
        var all := Lines(s.file, s.acked, s.offset);
        LinesEnds(s.file, s.acked, s.offset);
        assert s.batch[|s.batch| - 1] == all[|s.batch| - 1] && all[|s.batch| - 1] in all;
      }
      StepKeeps(env, s, steps[0]);
      CursorIsHigh(env, u, steps[1..], t);
    }
  }

  // ----- stored rows, told from the bytes of the file

  /** `text` is what stands between a line start `p` and the newline at `k`, less one CR. */
  ghost predicate LineHere(file: Bytes, p: nat, k: nat, text: Bytes) {
    && p <= k < |file| && file[k] == '\n'
    && (p == 0 || file[p - 1] == '\n') && (forall j :: p <= j < k ==> file[j] != '\n')
    && Cut(file[p..k], text)
  }

  /** `text` is `raw` less one CR at its end, if there is one. */
  ghost predicate Cut(raw: Bytes, text: Bytes) {
    raw == text + "\r" || (raw == text && !(text != "" && text[|text| - 1] == '\r'))
  }

  lemma CutIsTrim(raw: Bytes, text: Bytes)
    ensures Cut(raw, text) <==> text == TrimCR(raw)
  {
    if raw != [] { assert raw == raw[..|raw| - 1] + [raw[|raw| - 1]]; }
    if raw == text + "\r" { assert raw[..|raw| - 1] == text; }
  }

  /** `e` is the event of a line that ends before `high`. */
  ghost predicate OfLine(env: Env, file: Bytes, high: nat, e: Event) {
    exists p: nat, k: nat, text :: k < high && LineHere(file, p, k, text) && Makes(env, text, k + 1, e)
  }

  /** The rows are the events of the lines ending before `high`, each once, in file order. */
  ghost predicate RowsOf(env: Env, file: Bytes, high: nat, rows: seq<Event>) {
    && (forall e :: e in rows <==> OfLine(env, file, high, e))
    && (forall i, j :: 0 <= i < j < |rows| ==> rows[i].key.end < rows[j].key.end)
  }

  lemma LineAtHere(file: Bytes, k: nat, p: nat, text: Bytes)
    requires k < |file| && file[k] == LF
    ensures LineHere(file, p, k, text) <==> p == LineStart(file, k) && LineAt(file, k) == Record(text, k + 1)
  {
    hide Cut, TrimCR, LineStart;
    var start := LineStart(file, k);
    CutIsTrim(file[start..k], text);
    if LineHere(file, p, k, text) {
      StartUnique(file, p, k);
    } else if p == start {
      assert Boundary(file, p) && forall j :: p <= j < k ==> file[j] != LF;
    }
  }

  lemma {:induction false} RowsOfLines(env: Env, file: Bytes, high: nat)
    requires high <= |file|
    ensures RowsOf(env, file, high, Events(env, Lines(file, 0, high)))
    decreases high
  {
    hide Normalize, Makes, LineHere, Events, LineAt, Within;
    var rows := Events(env, Lines(file, 0, high));
    LinesStep(env, file, 0, high);
    EventEnds(env, file, 0, high);
    EndsRise(rows, 0, high);
    if high > 0 {
      RowsOfLines(env, file, high - 1);
      OneLineMore(env, file, high);
    }
  }

  lemma EndsRise(es: seq<Event>, lo: nat, hi: nat)
    requires Within(es, lo, hi)
    ensures forall i, j :: 0 <= i < j < |es| ==> es[i].key.end < es[j].key.end
  {
  }

  lemma OneLineMore(env: Env, file: Bytes, high: nat)
    requires 0 < high <= |file|
    requires RowsOf(env, file, high - 1, Events(env, Lines(file, 0, high - 1)))
    ensures forall e :: e in Events(env, Lines(file, 0, high)) <==> OfLine(env, file, high, e)
  {
    hide Normalize, Makes, Events, LineAt, LineHere;
    var k := high - 1;
    LinesStep(env, file, 0, high);
    if file[k] == LF {
      var r := LineAt(file, k);
      EventsPush(env, Lines(file, 0, k), r);
      NormalizeMakes(env, r);
      forall e ensures OfLine(env, file, high, e) <==> OfLine(env, file, k, e) || Makes(env, r.line, k + 1, e) {
        LineAtHere(file, k, LineStart(file, k), r.line);
        LineAtEnd(file, k);
        if OfLine(env, file, high, e) && !OfLine(env, file, k, e) {
          var p: nat, i: nat, text :| i < high && LineHere(file, p, i, text) && Makes(env, text, i + 1, e);
          LineAtHere(file, k, p, text);
        }
      }
      LineAtEnd(file, k);
    } else {
      forall e ensures OfLine(env, file, high, e) <==> OfLine(env, file, k, e) {
        if OfLine(env, file, high, e) {
          var p: nat, i: nat, text :| i < high && LineHere(file, p, i, text) && Makes(env, text, i + 1, e);
          LineIsEnded(file, p, i, text);
        }
      }
    }
  }

  lemma LineIsEnded(file: Bytes, p: nat, k: nat, text: Bytes)
    requires LineHere(file, p, k, text)
    ensures file[k] == LF
  {
  }

  /** Exactly-once ingestion. Over every interleaving of growth, polls at line boundaries,
      queueing, batching, commits that succeed or fail, reader stops, crashes and restarts:
      the stored rows are the parseable lines up to the high-water mark, in file order and
      once each, and every cursor sits just after a newline. The high-water mark is the
      cursor itself unless some restart failed to load it. */
  lemma ExactlyOnce(env: Env, file: Bytes, steps: seq<Step>, t: State)
    requires Run(env, Start(file), steps, t, true)
    ensures Boundary(t.file, t.high) && t.rows == Events(env, Lines(t.file, 0, t.high))
    ensures RowsOf(env, t.file, t.high, t.rows)
    ensures CursorOf(t) <= t.high && Boundary(t.file, CursorOf(t))
    ensures NoFailedLoad(steps) ==> CursorOf(t) == t.high
    ensures |t.queue| <= env.queueSize && |t.batch| <= env.batchSize
  {
    StartInv(env, file);
    RunKeeps(env, Start(file), steps, t);
    RowsOfLines(env, t.file, t.high);
    if NoFailedLoad(steps) {
      CursorIsHigh(env, Start(file), steps, t);
    }
  }

  lemma Complete(env: Env, t: State)
    requires Inv(env, t) && t.outbox == [] && t.queue == [] && t.batch == [] && t.offset == LineStart(t.file, |t.file|)
    ensures RowsOf(env, t.file, |t.file|, t.rows)
  {
    hide Events, Carried, RowsOf;
    RowsOfLines(env, t.file, |t.file|);
    NoLines(t.file, t.offset, |t.file|);
    LinesSplit(t.file, 0, t.offset, |t.file|);
    assert t.high == t.offset;
    assert Lines(t.file, 0, t.offset) + [] == Lines(t.file, 0, t.offset);
  }

  /** Nothing is lost either: whenever nothing is in flight and the reader has read to the end
      of the file, every parseable complete line is stored. */
  lemma QuiescentComplete(env: Env, file: Bytes, steps: seq<Step>, t: State)
    requires Run(env, Start(file), steps, t, true)
    requires t.outbox == [] && t.queue == [] && t.batch == [] && t.offset == LineStart(t.file, |t.file|)
    ensures RowsOf(env, t.file, |t.file|, t.rows)
  {
    hide Inv, RowsOf;
    StartInv(env, file);
    RunKeeps(env, Start(file), steps, t);
    Complete(env, t);
  }

  // ----- progress: from everywhere, the store can catch up

  lemma {:induction false} RunConcat(env: Env, s: State, a: seq<Step>, u: State, b: seq<Step>, t: State)
    requires Run(env, s, a, u, true) && Run(env, u, b, t, true)
    ensures Run(env, s, a + b, t, true)
    decreases |a|
  {
    hide Next, Enabled, Faithful, FitAfter;
    if a == [] {
      assert a + b == b;
    } else {
      RunConcat(env, Next(env, s, a[0]), a[1..], u, b, t);
      assert (a + b)[1..] == a[1..] + b;
    }
  }

  lemma RunOne(env: Env, s: State, step: Step)
    requires Enabled(env, s, step) && (step.ReadFile? ==> Faithful(s.pending, s.file, s.offset))
    ensures Run(env, s, [step], Next(env, s, step), true)
  {
    hide Next, Enabled, Faithful, FitAfter;
    assert [step][1..] == [];
  }

  /** The polled lines go one by one through queue and batch into the store. */
  lemma {:induction false} Drain(env: Env, s: State) returns (steps: seq<Step>, t: State)
    requires Inv(env, s) && s.up && s.queue == [] && s.batch == [] && env.queueSize > 0 && env.batchSize > 0
    requires Acceptable(env, s.outbox)
    ensures Run(env, s, steps, t, true) && Inv(env, t) && t.file == s.file
    ensures t.outbox == [] && t.queue == [] && t.batch == [] && t.offset == EndOf(s)
    decreases |s.outbox|
  {
    hide Inv, Acceptable, Faithful, InsertAll, Events;
    if s.outbox == [] {
      steps, t := [], s;
    } else {
      var a := Next(env, s, Enqueue);
      var b := Next(env, a, Take);
      assert b.batch == [s.outbox[0]] && b.queue == [];
      FirstAcceptable(env, s.outbox);
      FlushMeans(env, b.batch, b.rows);
      var c := Next(env, b, Commit(false));
      StepKeeps(env, s, Enqueue);
      StepKeeps(env, a, Take);
      StepKeeps(env, b, Commit(false));
      RunOne(env, s, Enqueue);
      RunOne(env, a, Take);
      RunOne(env, b, Commit(false));
      RunConcat(env, s, [Enqueue], a, [Take], b);
      RunConcat(env, s, [Enqueue] + [Take], b, [Commit(false)], c);
      steps, t := Drain(env, c);
      RunConcat(env, s, [Enqueue] + [Take] + [Commit(false)], c, steps, t);
      steps := [Enqueue] + [Take] + [Commit(false)] + steps;
    }
  }

  lemma FirstAcceptable(env: Env, rs: seq<Record>)
    requires rs != [] && Acceptable(env, rs)
    ensures Acceptable(env, [rs[0]]) && Acceptable(env, rs[1..])
  {
    hide Makes;
    forall e | MadeBy(env, rs[1..], e) ensures MadeBy(env, rs, e) {
      var i :| 0 <= i < |rs[1..]| && Makes(env, rs[1..][i].line, rs[1..][i].end, e);
      assert rs[i + 1] == rs[1..][i];
    }
    forall e | MadeBy(env, [rs[0]], e) ensures MadeBy(env, rs, e) {
      assert Makes(env, rs[0].line, rs[0].end, e);
    }
  }

  /** Whatever happened before, and whatever is appended still: the reader can be stopped and
      restarted at the stored cursor, and from there every line that parses reaches the store,
      provided the lines fit the bound and the database takes their events. */
  lemma CanCatchUp(env: Env, file: Bytes, steps: seq<Step>, s: State, more: Bytes) returns (rest: seq<Step>, t: State)
    requires Run(env, Start(file), steps, s, true) && env.queueSize > 0 && env.batchSize > 0
    requires AllShort(s.file + more, 0) && Acceptable(env, Lines(s.file + more, 0, |s.file + more|))
    ensures Run(env, s, [Append(more)] + (if s.up then [StopReader] else []) + [Restart(true), ReadFile] + rest, t, true)
    ensures t.file == s.file + more && RowsOf(env, t.file, |t.file|, t.rows)
  {
    hide Inv, Run, Acceptable, Faithful, RowsOf, Lines, Poll, Carried, Events, InsertAll;
    StartInv(env, file);
    RunKeeps(env, Start(file), steps, s);
    var a := Next(env, s, Append(more));
    StepKeeps(env, s, Append(more));
    RunOne(env, s, Append(more));
    var pre, b := [Append(more)] + (if s.up then [StopReader] else []), if s.up then Next(env, a, StopReader) else a;
    if s.up {
      StepKeeps(env, a, StopReader);
      RunOne(env, a, StopReader);
      RunConcat(env, s, [Append(more)], a, [StopReader], b);
    } else {
      assert pre == [Append(more)];
    }
    var c := Next(env, b, Restart(true));
    StepKeeps(env, b, Restart(true));
    RunOne(env, b, Restart(true));
    Rewound(env, c);
    var d := Next(env, c, ReadFile);
    StepKeeps(env, c, ReadFile);
    RunOne(env, c, ReadFile);
    Polled(env, c);
    rest, t := Drain(env, d);
    RunConcat(env, s, pre, b, [Restart(true)], c);
    RunConcat(env, s, pre + [Restart(true)], c, [ReadFile], d);
    assert pre + [Restart(true)] + [ReadFile] == pre + [Restart(true), ReadFile];
    RunConcat(env, s, pre + [Restart(true), ReadFile], d, rest, t);
    Complete(env, t);
  }

  /** A first start needs no restart. */
  lemma CanStart(env: Env, file: Bytes) returns (rest: seq<Step>, t: State)
    requires env.queueSize > 0 && env.batchSize > 0
    requires AllShort(file, 0) && Acceptable(env, Lines(file, 0, |file|))
    ensures Run(env, Start(file), [ReadFile] + rest, t, true) && t.file == file && RowsOf(env, file, |file|, t.rows)
  {
    hide Inv, Acceptable, Faithful, RowsOf, Lines, Poll, Carried;
    var s := Start(file);
    StartInv(env, file);
    Rewound(env, s);
    StepKeeps(env, s, ReadFile);
    RunOne(env, s, ReadFile);
    Polled(env, s);
    rest, t := Drain(env, Next(env, s, ReadFile));
    RunConcat(env, s, [ReadFile], Next(env, s, ReadFile), rest, t);
    Complete(env, t);
  }

  lemma Rewound(env: Env, s: State)
    requires Inv(env, s) && s.pending == [] && AllShort(s.file, 0)
    ensures Boundary(s.file, s.offset) && Faithful(s.pending, s.file, s.offset)
  {
    hide Lines, LineStart;
  }

  /** After a poll from an empty reader everything complete is on its way. */
  lemma Polled(env: Env, s: State)
    requires Inv(env, s) && Enabled(env, s, ReadFile) && Faithful(s.pending, s.file, s.offset)
    requires Acceptable(env, Lines(s.file, 0, |s.file|))
    ensures var t := Next(env, s, ReadFile);
      EndOf(t) == LineStart(s.file, |s.file|) && Acceptable(env, t.outbox)
  {
    hide Lines, Poll, Faithful, LineStart, Acceptable, Events, Carried;
    assert Carried(s.pending, s.file, s.offset);
    PollEnd(s.file, s.offset, s.pending);
    LinesSplit(s.file, 0, s.offset, |s.file|);
    var all, some := Lines(s.file, 0, |s.file|), Lines(s.file, s.offset, |s.file|);
    SuffixAcceptable(env, Lines(s.file, 0, s.offset), some);
  }

  lemma SuffixAcceptable(env: Env, a: seq<Record>, b: seq<Record>)
    requires Acceptable(env, a + b)
    ensures Acceptable(env, b)
  {
    hide Makes;
    forall e | MadeBy(env, b, e) ensures MadeBy(env, a + b, e) {
      var i :| 0 <= i < |b| && Makes(env, b[i].line, b[i].end, e);
      assert (a + b)[|a| + i] == b[i];
    }
  }

  // ----- what survives partial reads

  ghost predicate LineEnds(file: Bytes, rs: seq<Record>) {
    forall i :: 0 <= i < |rs| ==> Boundary(file, rs[i].end)
  }

  ghost predicate OffsetInv(s: State) {
    && Boundary(s.file, s.offset) && Boundary(s.file, CursorOf(s))
    && LineEnds(s.file, s.outbox) && LineEnds(s.file, s.queue) && LineEnds(s.file, s.batch)
    && !HasLF(s.pending)
  }

  lemma OffsetStep(env: Env, s: State, step: Step)
    requires OffsetInv(s) && Enabled(env, s, step)
    requires step.ReadFile? ==> FitAfter(s.pending, s.file, s.offset)
    ensures OffsetInv(Next(env, s, step))
  {
    hide Poll, Lines, InsertAll, Events, FitAfter;
    if step.ReadFile? {
      PollOffsets(s.file, s.offset, s.pending);
      var lines := Lines(s.file, s.offset, |s.file|);
      LinesEnds(s.file, s.offset, |s.file|);
      assert forall k :: 0 <= k < |lines| ==> lines[k] in lines;
    }
  }

  /** With partial reads allowed the text of a line can be wrong, but as long as the lines of
      each poll fit its bound, the cursor, and every offset on its way to becoming the cursor,
      sits just after a newline. */
  lemma {:induction false} CursorAfterNewline(env: Env, s: State, steps: seq<Step>, t: State)
    requires OffsetInv(s) && Run(env, s, steps, t, false)
    ensures OffsetInv(t)
    decreases |steps|
  {
    hide OffsetInv, FitAfter;
    if steps != [] {
      OffsetStep(env, s, steps[0]);
      CursorAfterNewline(env, Next(env, s, steps[0]), steps[1..], t);
    }
  }

  /** A run without any condition on its polls. */
  ghost predicate AnyRun(env: Env, s: State, steps: seq<Step>, t: State)
    decreases |steps|
  {
    if steps == [] then s == t else Enabled(env, s, steps[0]) && AnyRun(env, Next(env, s, steps[0]), steps[1..], t)
  }

  /** Every poll returns the start of the unterminated tail. */
  ghost predicate OnTrack(env: Env, s: State, steps: seq<Step>)
    decreases |steps|
  {
    steps != [] ==>
      && Enabled(env, s, steps[0])
      && (steps[0].ReadFile? ==> Poll(s.file, s.offset, s.pending).next == LineStart(s.file, |s.file|))
      && OnTrack(env, Next(env, s, steps[0]), steps[1..])
  }

  /** Over a whole run, no poll loses its place exactly when the lines of every poll fit. */
  lemma {:induction false} OnTrackIff(env: Env, s: State, steps: seq<Step>, t: State)
    requires OffsetInv(s) && AnyRun(env, s, steps, t)
    ensures OnTrack(env, s, steps) <==> Run(env, s, steps, t, false)
    decreases |steps|
  {
    hide OffsetInv, FitAfter, Poll, LineStart;
    if steps != [] {
      if steps[0].ReadFile? {
        PollFits(s);
      }
      if steps[0].ReadFile? ==> FitAfter(s.pending, s.file, s.offset) {
        OffsetStep(env, s, steps[0]);
        OnTrackIff(env, Next(env, s, steps[0]), steps[1..], t);
      }
    }
  }

  lemma PollFits(s: State)
    requires OffsetInv(s) && s.offset <= |s.file|
    ensures Poll(s.file, s.offset, s.pending).next == LineStart(s.file, |s.file|) <==> FitAfter(s.pending, s.file, s.offset)
  {
    hide Poll, FitAfter, LineStart;
    PollCursorIff(s.file, s.offset, s.pending);
  }
}
