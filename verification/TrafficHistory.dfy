/** The traffic totals of a time range, folded from counter snapshots. */
module TrafficHistory {
  import opened Text
  import opened Sorting
  import opened StringSets

  /** A TrafficSnapshot row. */
  datatype Row = Row(id: nat, at: int, scope: string, counterKey: string, client: string, inbound: int, node: int,
                     up: int, down: int)

  /** The key of the running map of last samples. */
  function Counter(r: Row): string {
    r.scope + "\0" + r.counterKey
  }

  datatype Totals = Totals(up: int, down: int, clients: set<string>, inbounds: set<int>, nodes: set<int>)

  const NOTHING := Totals(0, 0, {}, {}, {})

  function Plus(a: Totals, b: Totals): Totals {
    Totals(a.up + b.up, a.down + b.down, a.clients + b.clients, a.inbounds + b.inbounds, a.nodes + b.nodes)
  }

  lemma PlusLaws(a: Totals, b: Totals, c: Totals)
    ensures Plus(a, b) == Plus(b, a) && Plus(Plus(a, b), c) == Plus(a, Plus(b, c)) && Plus(a, NOTHING) == a
  {
    assert a.clients + b.clients == b.clients + a.clients;
    assert a.inbounds + b.inbounds == b.inbounds + a.inbounds;
    assert a.nodes + b.nodes == b.nodes + a.nodes;
    assert (a.clients + b.clients) + c.clients == a.clients + (b.clients + c.clients);
    assert (a.inbounds + b.inbounds) + c.inbounds == a.inbounds + (b.inbounds + c.inbounds);
    assert (a.nodes + b.nodes) + c.nodes == a.nodes + (b.nodes + c.nodes);
  }

  /** What a row adds, given the sample before it of the same counter: nothing outside the range,
      without a predecessor, or when either number went down. */
  function Gain(previous: Option<Row>, row: Row, from: int, to: int): Totals {
    if previous == None || row.at < from || row.at > to then NOTHING
    else if row.up < previous.value.up || row.down < previous.value.down then NOTHING
    else Totals(row.up - previous.value.up, row.down - previous.value.down,
                if row.client != "" then {row.client} else {},
                if row.inbound != 0 then {row.inbound} else {},
                if row.node != 0 then {row.node} else {})
  }

  /** The latest row of a counter. */
  function LastOf(rows: seq<Row>, k: string): Option<Row> {
    if rows == [] then None
    else if Counter(rows[|rows| - 1]) == k then Some(rows[|rows| - 1])
    else LastOf(rows[..|rows| - 1], k)
  }

  function Fold(rows: seq<Row>, from: int, to: int): Totals {
    if rows == [] then NOTHING else
      var front, row := rows[..|rows| - 1], rows[|rows| - 1];
      Plus(Fold(front, from, to), Gain(LastOf(front, Counter(row)), row, from, to))
  }

  method Accumulate(rows: seq<Row>, from: int, to: int) returns (t: Totals)
    ensures t == Fold(rows, from, to)
  {
    hide Counter, Gain;
    var last: map<string, Row> := map[];
    t := NOTHING;
    for i := 0 to |rows|
      invariant forall k :: k in last <==> LastOf(rows[..i], k).Some?
      invariant forall k :: k in last ==> LastOf(rows[..i], k) == Some(last[k])
      invariant t == Fold(rows[..i], from, to)
    {
      var row := rows[i];
      var key := Counter(row);
      var previous := if key in last then Some(last[key]) else None;
      last := last[key := row];
      assert rows[..i + 1][..i] == rows[..i];
      t := Added(t, previous, row, from, to);
    }
    assert rows[..|rows|] == rows;
  }

  /** The loop body's updates of the result. */
  method Added(t: Totals, previous: Option<Row>, row: Row, from: int, to: int) returns (r: Totals)
    ensures r == Plus(t, Gain(previous, row, from, to))
  {
    PlusLaws(t, NOTHING, NOTHING);
    r := t;
    if row.at < from || row.at > to || previous == None {
      return;
    }
    if row.up < previous.value.up || row.down < previous.value.down {
      return;
    }
    var up, down := t.up + (row.up - previous.value.up), t.down + (row.down - previous.value.down);
    var clients, inbounds, nodes := t.clients, t.inbounds, t.nodes;
    if row.client != "" {
      clients := clients + {row.client};
    }
    if row.inbound != 0 {
      inbounds := inbounds + {row.inbound};
    }
    if row.node != 0 {
      nodes := nodes + {row.node};
    }
    r := Totals(up, down, clients, inbounds, nodes);
  }

  // ----- laws of the fold

  lemma {:induction false} NonNegative(rows: seq<Row>, from: int, to: int)
    ensures Fold(rows, from, to).up >= 0 && Fold(rows, from, to).down >= 0
    decreases |rows|
  {
    if rows != [] { NonNegative(rows[..|rows| - 1], from, to); }
  }

  function Sub(rows: seq<Row>, k: string): seq<Row> {
    if rows == [] then [] else
      var row := rows[|rows| - 1];
      Sub(rows[..|rows| - 1], k) + if Counter(row) == k then [row] else []
  }

  function Rest(rows: seq<Row>, k: string): seq<Row> {
    if rows == [] then [] else
      var row := rows[|rows| - 1];
      Rest(rows[..|rows| - 1], k) + if Counter(row) == k then [] else [row]
  }

  lemma {:induction false} LastOfParts(rows: seq<Row>, k: string, j: string)
    ensures LastOf(rows, j) == if j == k then LastOf(Sub(rows, k), j) else LastOf(Rest(rows, k), j)
    decreases |rows|
  {
    hide Counter;
    if rows != [] {
      var front, row := rows[..|rows| - 1], rows[|rows| - 1];
      LastOfParts(front, k, j);
      assert (Sub(front, k) + [row])[..|Sub(front, k)|] == Sub(front, k);
      assert (Rest(front, k) + [row])[..|Rest(front, k)|] == Rest(front, k);
      assert Sub(front, k) + [] == Sub(front, k) && Rest(front, k) + [] == Rest(front, k);
    }
  }

  lemma FoldMore(rows: seq<Row>, row: Row, from: int, to: int)
    ensures Fold(rows + [row], from, to) == Plus(Fold(rows, from, to), Gain(LastOf(rows, Counter(row)), row, from, to))
  {
    assert (rows + [row])[..|rows|] == rows;
  }

  /** A counter's contribution can be computed on its own and added to that of all others. */
  lemma {:induction false} Split(rows: seq<Row>, k: string, from: int, to: int)
    ensures Fold(rows, from, to) == Plus(Fold(Sub(rows, k), from, to), Fold(Rest(rows, k), from, to))
    decreases |rows|
  {
    hide Counter, Gain, LastOf, Plus;
    if rows == [] {
      PlusLaws(NOTHING, NOTHING, NOTHING);
    } else {
      var front, row := rows[..|rows| - 1], rows[|rows| - 1];
      Split(front, k, from, to);
      LastOfParts(front, k, Counter(row));
      var s, r := Sub(front, k), Rest(front, k);
      var g := Gain(LastOf(front, Counter(row)), row, from, to);
      FoldMore(s, row, from, to);
      FoldMore(r, row, from, to);
      PlusLaws(Fold(s, from, to), Fold(r, from, to), g);
      PlusLaws(Fold(s, from, to), g, Fold(r, from, to));
      PlusLaws(g, Fold(r, from, to), g);
      assert s + [] == s && r + [] == r;
    }
  }

  /** Two row orders that keep each counter's own samples in order. */
  ghost predicate SamePerCounter(a: seq<Row>, b: seq<Row>) {
    forall k :: Sub(a, k) == Sub(b, k)
  }

  lemma {:induction false} SubOfRest(rows: seq<Row>, k: string, j: string)
    ensures Sub(Rest(rows, k), j) == if j == k then [] else Sub(rows, j)
    ensures |Rest(rows, k)| + |Sub(rows, k)| == |rows|
    decreases |rows|
  {
    hide Counter;
    if rows != [] {
      var front, row := rows[..|rows| - 1], rows[|rows| - 1];
      SubOfRest(front, k, j);
      var r := Rest(front, k);
      assert (r + [row])[..|r|] == r;
      assert r + [] == r && Sub(r, j) + [] == Sub(r, j) && Sub(front, j) + [] == Sub(front, j);
    }
  }

  lemma NoCounters(rows: seq<Row>)
    ensures (forall k :: Sub(rows, k) == []) ==> rows == []
  {
    if rows != [] {
      assert Sub(rows, Counter(rows[|rows| - 1])) != [];
    }
  }

  /** The totals do not depend on how the counters interleave. */
  lemma {:induction false} InterleavingFree(a: seq<Row>, b: seq<Row>, from: int, to: int)
    requires SamePerCounter(a, b)
    ensures Fold(a, from, to) == Fold(b, from, to)
    decreases |a|
  {
    hide Counter, Fold;
    if a == [] {
      assert forall k :: Sub(a, k) == [];
      NoCounters(b);
    } else {
      var k := Counter(a[|a| - 1]);
      SubOfRest(a, k, k);
      assert Sub(a, k) != [];
      forall j ensures Sub(Rest(a, k), j) == Sub(Rest(b, k), j) {
        SubOfRest(a, k, j);
        SubOfRest(b, k, j);
      }
      Split(a, k, from, to);
      Split(b, k, from, to);
      InterleavingFree(Rest(a, k), Rest(b, k), from, to);
    }
  }

  /** Adjacent ranges over the same samples add up. */
  lemma {:induction false} FoldAdds(rows: seq<Row>, a: int, b: int, c: int)
    requires a <= b <= c
    ensures Plus(Fold(rows, a, b), Fold(rows, b + 1, c)) == Fold(rows, a, c)
    decreases |rows|
  {
    hide Counter, Gain, LastOf, Plus;
    if rows == [] {
      PlusLaws(NOTHING, NOTHING, NOTHING);
    } else {
      var front, row := rows[..|rows| - 1], rows[|rows| - 1];
      FoldAdds(front, a, b, c);
      var p := LastOf(front, Counter(row));
      GainAdds(p, row, a, b, c);
      var x, y, g, h := Fold(front, a, b), Fold(front, b + 1, c), Gain(p, row, a, b), Gain(p, row, b + 1, c);
      PlusLaws(x, g, Plus(y, h));
      PlusLaws(g, y, h);
      PlusLaws(y, g, h);
      PlusLaws(x, y, Plus(g, h));
    }
  }

  lemma GainAdds(p: Option<Row>, row: Row, a: int, b: int, c: int)
    requires a <= b <= c
    ensures Plus(Gain(p, row, a, b), Gain(p, row, b + 1, c)) == Gain(p, row, a, c)
  {
    hide Plus;
    PlusLaws(Gain(p, row, a, c), NOTHING, NOTHING);
    if row.at <= b {
      assert Gain(p, row, b + 1, c) == NOTHING && Gain(p, row, a, b) == Gain(p, row, a, c);
    } else {
      assert Gain(p, row, a, b) == NOTHING && Gain(p, row, b + 1, c) == Gain(p, row, a, c);
    }
  }

  // ----- one counter

  /** The samples of each counter are in time order. */
  ghost predicate TimeSorted(rows: seq<Row>) {
    forall i, j :: 0 <= i < j < |rows| && Counter(rows[i]) == Counter(rows[j]) ==> rows[i].at <= rows[j].at
  }

  ghost predicate OneCounter(rows: seq<Row>) {
    forall i, j :: 0 <= i < |rows| && 0 <= j < |rows| ==> Counter(rows[i]) == Counter(rows[j])
  }

  ghost predicate NeverFalls(rows: seq<Row>) {
    forall i, j :: 0 <= i < j < |rows| ==> rows[i].up <= rows[j].up && rows[i].down <= rows[j].down
  }

  /** The last sample before the range, or the first one there is. */
  function Base(rows: seq<Row>, from: int): Row
    requires rows != []
  {
    var row := rows[|rows| - 1];
    if |rows| == 1 || row.at < from then row else Base(rows[..|rows| - 1], from)
  }

  /** A counter that never falls contributes its last sample minus the one before the range (or
      its first sample, where none is older). */
  lemma {:induction false} Telescopes(rows: seq<Row>, from: int, to: int)
    requires rows != [] && OneCounter(rows) && TimeSorted(rows) && NeverFalls(rows)
    requires forall i :: 0 <= i < |rows| ==> rows[i].at <= to
    ensures var t := Fold(rows, from, to); var base := Base(rows, from); var last := rows[|rows| - 1];
      t.up == last.up - base.up && t.down == last.down - base.down
    decreases |rows|
  {
    hide Counter, Fold, LastOf, OneCounter, TimeSorted, NeverFalls, Base, Gain;
    var front, row := rows[..|rows| - 1], rows[|rows| - 1];
    assert rows == front + [row];
    FoldMore(front, row, from, to);
    BaseMore(rows, from);
    assert row.at <= to;
    if front == [] {
      NoGain(front, row, from, to);
    } else {
      Predecessor(rows);
      var p := front[|front| - 1];
      GainFrom(p, row, from, to);
      forall i | 0 <= i < |front| ensures front[i].at <= to {
        assert front[i] == rows[i];
      }
      Telescopes(front, from, to);
      if row.at < from { BeforeRange(front, from, to); }
    }
  }

  lemma BaseMore(rows: seq<Row>, from: int)
    requires rows != []
    ensures var row := rows[|rows| - 1];
      Base(rows, from) == if |rows| == 1 || row.at < from then row else Base(rows[..|rows| - 1], from)
  {
  }

  lemma GainFrom(p: Row, row: Row, from: int, to: int)
    requires p.up <= row.up && p.down <= row.down && row.at <= to
    ensures var g := Gain(Some(p), row, from, to);
      if row.at < from then g == NOTHING else g.up == row.up - p.up && g.down == row.down - p.down
  {
  }

  lemma NoGain(rows: seq<Row>, row: Row, from: int, to: int)
    requires rows == []
    ensures Plus(Fold(rows, from, to), Gain(LastOf(rows, Counter(row)), row, from, to)) == NOTHING
  {
    hide Plus;
    PlusLaws(NOTHING, NOTHING, NOTHING);
    assert LastOf(rows, Counter(row)) == None;
  }

  lemma Predecessor(rows: seq<Row>)
    requires |rows| > 1 && OneCounter(rows) && TimeSorted(rows) && NeverFalls(rows)
    ensures var front, row := rows[..|rows| - 1], rows[|rows| - 1]; var p := front[|front| - 1];
      && OneCounter(front) && TimeSorted(front) && NeverFalls(front)
      && LastOf(front, Counter(row)) == Some(p) && p.up <= row.up && p.down <= row.down
      && (forall i :: 0 <= i < |front| ==> front[i].at <= row.at)
  {
    hide Counter;
  }

  lemma {:induction false} BeforeRange(rows: seq<Row>, from: int, to: int)
    requires forall i :: 0 <= i < |rows| ==> rows[i].at < from
    ensures Fold(rows, from, to).up == 0 && Fold(rows, from, to).down == 0
    decreases |rows|
  {
    if rows != [] { BeforeRange(rows[..|rows| - 1], from, to); }
  }

  // ----- the query

  /** The rows up to a time, of one client or of all. */
  function Select(table: seq<Row>, client: string, to: int): seq<Row> {
    if table == [] then [] else
      var row := table[|table| - 1];
      Select(table[..|table| - 1], client, to) +
      if row.at <= to && (client == "" || row.client == client) then [row] else []
  }

  /** ORDER BY counter_key, observed_at, id. */
  predicate RowLess(a: Row, b: Row) {
    if a.counterKey != b.counterKey then Less(a.counterKey, b.counterKey)
    else if a.at != b.at then a.at < b.at
    else a.id < b.id
  }

  function Ordered(table: seq<Row>, client: string, to: int): seq<Row> {
    Sort(Select(table, client, to), RowLess)
  }

  function History(table: seq<Row>, client: string, from: int, to: int): Totals {
    Fold(Ordered(table, client, to), from, to)
  }

  datatype Result = Err | Ok(up: int, down: int, clients: nat, inbounds: nat, nodes: nat)

  method QueryTrafficHistory(table: seq<Row>, client: string, from: int, to: int) returns (r: Result)
    ensures r == Err <==> from < 0 || to <= from
    ensures r.Ok? ==> var t := History(table, client, from, to);
      r == Ok(t.up, t.down, |t.clients|, |t.inbounds|, |t.nodes|)
  {
    hide Fold, Ordered;
    if from < 0 || to <= from {
      return Err;
    }
    var rows := Ordered(table, client, to);
    var t := Accumulate(rows, from, to);
    r := Ok(t.up, t.down, |t.clients|, |t.inbounds|, |t.nodes|);
  }

  lemma RowOrder()
    ensures WeakOrder(RowLess)
  {
    hide Less;
    StringOrder();
    forall x, y, z | RowLess(x, y) && RowLess(y, z) ensures RowLess(x, z) {
      KeyChain(x.counterKey, y.counterKey, z.counterKey);
    }
    forall x, y, z | !RowLess(x, y) && !RowLess(y, z) ensures !RowLess(x, z) {
      KeyChain(z.counterKey, y.counterKey, x.counterKey);
    }
  }

  /** String order as needed for the first sort column. */
  lemma KeyChain(a: string, b: string, c: string)
    ensures Less(a, b) && Less(b, c) ==> Less(a, c)
    ensures !(Less(a, b) && Less(b, a)) && !(Less(a, c) && Less(c, a)) && !(Less(b, c) && Less(c, b))
    ensures a != b ==> Less(a, b) || Less(b, a)
    ensures b != c ==> Less(b, c) || Less(c, b)
    ensures a != c ==> Less(a, c) || Less(c, a)
  {
    StringOrder();
    LessIrreflexive(a);
    LessIrreflexive(b);
    LessIrreflexive(c);
    if a != b { LessTotal(a, b); }
    if b != c { LessTotal(b, c); }
    if a != c { LessTotal(a, c); }
  }

  /** Row ids are unique. */
  ghost predicate UniqueIds(table: seq<Row>) {
    forall i, j :: 0 <= i < j < |table| ==> table[i].id != table[j].id
  }

  lemma {:induction false} SelectIn(table: seq<Row>, client: string, to: int, r: Row)
    ensures r in Select(table, client, to) <==> r in table && r.at <= to && (client == "" || r.client == client)
    decreases |table|
  {
    if table != [] {
      SelectIn(table[..|table| - 1], client, to, r);
      assert table == table[..|table| - 1] + [table[|table| - 1]];
    }
  }

  lemma {:induction false} SelectCount(table: seq<Row>, client: string, to: int, r: Row)
    ensures multiset(Select(table, client, to))[r] ==
      if r.at <= to && (client == "" || r.client == client) then multiset(table)[r] else 0
    decreases |table|
  {
    if table != [] {
      var front, row := table[..|table| - 1], table[|table| - 1];
      SelectCount(front, client, to, r);
      assert table == front + [row];
    }
  }

  lemma {:induction false} SelectTwice(table: seq<Row>, client: string, b: int, c: int)
    requires b <= c
    ensures Select(Select(table, client, c), "", b) == Select(table, client, b)
    decreases |table|
  {
    if table != [] {
      var front, row := table[..|table| - 1], table[|table| - 1];
      SelectTwice(front, client, b, c);
      var kept := Select(front, client, c);
      assert (kept + [row])[..|kept|] == kept;
      assert kept + [] == kept;
    }
  }

  lemma {:induction false} SelectSorted(rows: seq<Row>, client: string, to: int)
    requires Sorted(rows, RowLess)
    ensures Sorted(Select(rows, client, to), RowLess)
    decreases |rows|
  {
    hide RowLess;
    if rows != [] {
      var front, row := rows[..|rows| - 1], rows[|rows| - 1];
      SelectSorted(front, client, to);
      var kept := Select(front, client, to);
      forall i | 0 <= i < |kept| ensures !RowLess(row, kept[i]) {
        SelectIn(front, client, to, kept[i]);
        var j :| 0 <= j < |front| && front[j] == kept[i];
        assert rows[j] == kept[i];
      }
    }
  }

  lemma SelectUnique(table: seq<Row>, client: string, to: int)
    requires UniqueIds(table)
    ensures TotalOn(Select(table, client, to), RowLess)
  {
    var kept := Select(table, client, to);
    forall x, y | x in kept && y in kept && x != y ensures RowLess(x, y) || RowLess(y, x) {
      SelectIn(table, client, to, x);
      SelectIn(table, client, to, y);
      var i :| 0 <= i < |table| && table[i] == x;
      var j :| 0 <= j < |table| && table[j] == y;
      assert x.id != y.id by {
        if i < j { assert table[i].id != table[j].id; } else { assert table[j].id != table[i].id; }
      }
      KeyChain(x.counterKey, y.counterKey, x.counterKey);
    }
  }

  /** The answer does not depend on the order of the table's rows. */
  lemma OrderFree(x: seq<Row>, y: seq<Row>, client: string, from: int, to: int)
    requires UniqueIds(x) && multiset(x) == multiset(y)
    ensures History(x, client, from, to) == History(y, client, from, to)
  {
    hide RowLess, Fold;
    var a, b := Select(x, client, to), Select(y, client, to);
    forall r: Row ensures multiset(a)[r] == multiset(b)[r] {
      SelectCount(x, client, to, r);
      SelectCount(y, client, to, r);
    }
    assert multiset(a) == multiset(b);
    RowOrder();
    SelectUnique(x, client, to);
    SortCanonical(a, b, RowLess);
  }

  /** A narrower query sees the start of what a wider one sees, counter by counter. */
  lemma Narrower(table: seq<Row>, client: string, b: int, c: int)
    requires UniqueIds(table) && b <= c
    ensures Select(Ordered(table, client, c), "", b) == Ordered(table, client, b)
  {
    hide RowLess, Sort;
    RowOrder();
    var wide, narrow := Select(table, client, c), Select(table, client, b);
    SortSorted(wide, RowLess);
    SortSorted(narrow, RowLess);
    SortPermutes(wide, RowLess);
    SortPermutes(narrow, RowLess);
    var cut := Select(Sort(wide, RowLess), "", b);
    SelectSorted(Sort(wide, RowLess), "", b);
    SelectTwice(table, client, b, c);
    forall r: Row ensures multiset(cut)[r] == multiset(Sort(narrow, RowLess))[r] {
      SelectCount(Sort(wide, RowLess), "", b, r);
      SelectCount(wide, "", b, r);
    }
    assert multiset(cut) == multiset(Sort(narrow, RowLess));
    SelectUnique(table, client, b);
    forall x, y | x in cut && y in cut && x != y ensures RowLess(x, y) || RowLess(y, x) {
      assert x in multiset(cut) && y in multiset(cut);
      assert x in narrow && y in narrow;
    }
    SortedUnique(cut, Sort(narrow, RowLess), RowLess);
  }

  /** No scope contains the separator of the map key; the scopes in use are three plain words. */
  ghost predicate PlainScopes(rows: seq<Row>) {
    forall r :: r in rows ==> '\0' !in r.scope
  }

  lemma CounterInjective(x: Row, y: Row)
    requires '\0' !in x.scope && '\0' !in y.scope && Counter(x) == Counter(y)
    ensures x.scope == y.scope && x.counterKey == y.counterKey
  {
    IndexFirst(x.scope, '\0', x.counterKey);
    IndexFirst(y.scope, '\0', y.counterKey);
    assert Counter(x) == x.scope + ['\0'] + x.counterKey && Counter(y) == y.scope + ['\0'] + y.counterKey;
    assert x.scope == Counter(x)[..|x.scope|] && y.scope == Counter(y)[..|y.scope|];
    assert x.counterKey == Counter(x)[|x.scope| + 1..] && y.counterKey == Counter(y)[|y.scope| + 1..];
  }

  /** The query's order keeps each counter's samples in time order. */
  lemma OrderedByTime(table: seq<Row>, client: string, to: int)
    requires PlainScopes(table)
    ensures TimeSorted(Ordered(table, client, to))
  {
    hide Sort, Counter;
    var kept := Select(table, client, to);
    var rows := Ordered(table, client, to);
    RowOrder();
    SortSorted(kept, RowLess);
    SortPermutes(kept, RowLess);
    forall i, j | 0 <= i < j < |rows| && Counter(rows[i]) == Counter(rows[j]) ensures rows[i].at <= rows[j].at {
      assert rows[i] in rows && rows[j] in rows;
      SelectIn(table, client, to, rows[i]);
      SelectIn(table, client, to, rows[j]);
      CounterInjective(rows[i], rows[j]);
      assert !RowLess(rows[j], rows[i]);
    }
  }

  /** Samples after the range, and only those, may be left out. */
  lemma {:induction false} CutOff(rows: seq<Row>, from: int, to: int)
    requires TimeSorted(rows)
    ensures Fold(Select(rows, "", to), from, to) == Fold(rows, from, to)
    decreases |rows|
  {
    hide Counter, LastOf, Plus, Gain;
    if rows != [] {
      var front, row := rows[..|rows| - 1], rows[|rows| - 1];
      CutOff(front, from, to);
      var kept := Select(front, "", to);
      if row.at <= to {
        FoldMore(kept, row, from, to);
        LastCut(front, row, to);
      } else {
        assert kept + [] == kept;
        Late(LastOf(front, Counter(row)), row, from, to);
        PlusLaws(Fold(front, from, to), NOTHING, NOTHING);
      }
    }
  }

  lemma Late(p: Option<Row>, row: Row, from: int, to: int)
    requires row.at > to
    ensures Gain(p, row, from, to) == NOTHING
  {
  }

  lemma {:induction false} LastCut(front: seq<Row>, row: Row, to: int)
    requires TimeSorted(front + [row]) && row.at <= to
    ensures LastOf(Select(front, "", to), Counter(row)) == LastOf(front, Counter(row))
    decreases |front|
  {
    hide Counter;
    if front != [] {
      var rest, last := front[..|front| - 1], front[|front| - 1];
      var all := front + [row];
      forall i, j | 0 <= i < j < |rest + [row]| && Counter((rest + [row])[i]) == Counter((rest + [row])[j])
        ensures (rest + [row])[i].at <= (rest + [row])[j].at
      {
        assert (rest + [row])[i] == all[i] && (rest + [row])[j] == all[if j == |rest| then j + 1 else j];
      }
      LastCut(rest, row, to);
      var kept := Select(rest, "", to);
      assert (kept + [last])[..|kept|] == kept && kept + [] == kept;
      if Counter(last) == Counter(row) {
        assert all[|front| - 1] == last && all[|front|] == row;
      }
    }
  }

  /** Adjacent ranges add up: the totals over [a, b] and over [b + 1, c] make those over [a, c],
      for the numbers and for who was seen. (A query for a single moment is refused, so the
      equation is about the totals, which a query returns where its range is not empty.) */
  lemma HistoryAdds(table: seq<Row>, client: string, a: int, b: int, c: int)
    requires UniqueIds(table) && PlainScopes(table) && a <= b < c
    ensures Plus(History(table, client, a, b), History(table, client, b + 1, c)) == History(table, client, a, c)
  {
    hide Fold, Ordered, Plus;
    var rows := Ordered(table, client, c);
    OrderedByTime(table, client, c);
    Narrower(table, client, b, c);
    CutOff(rows, a, b);
    FoldAdds(rows, a, b, c);
  }

  /** A counter that never falls adds its last sample up to the end of the range minus its last
      one before it (or its first), whatever the other counters do. */
  lemma CounterShare(table: seq<Row>, client: string, k: string, from: int, to: int)
    requires PlainScopes(table)
    requires var own := Sub(Ordered(table, client, to), k); own != [] && NeverFalls(own)
    ensures var rows := Ordered(table, client, to); var own := Sub(rows, k);
      var all, others := History(table, client, from, to), Fold(Rest(rows, k), from, to);
      && all.up == own[|own| - 1].up - Base(own, from).up + others.up
      && all.down == own[|own| - 1].down - Base(own, from).down + others.down
  {
    hide Counter, Fold, Base, Sort, TimeSorted, NeverFalls;
    var rows := Ordered(table, client, to);
    OrderedByTime(table, client, to);
    Split(rows, k, from, to);
    SubFacts(rows, k);
    SortPermutes(Select(table, client, to), RowLess);
    forall i | 0 <= i < |Sub(rows, k)| ensures Sub(rows, k)[i].at <= to {
      SubIn(rows, k, i);
      SelectIn(table, client, to, Sub(rows, k)[i]);
    }
    Telescopes(Sub(rows, k), from, to);
  }

  lemma {:induction false} SubIn(rows: seq<Row>, k: string, i: nat)
    requires i < |Sub(rows, k)|
    ensures Sub(rows, k)[i] in rows && Counter(Sub(rows, k)[i]) == k
    decreases |rows|
  {
    hide Counter;
    if rows != [] {
      var front := rows[..|rows| - 1];
      if i < |Sub(front, k)| { SubIn(front, k, i); }
    }
  }

  lemma {:induction false} SubFacts(rows: seq<Row>, k: string)
    requires TimeSorted(rows)
    ensures OneCounter(Sub(rows, k)) && TimeSorted(Sub(rows, k))
    decreases |rows|
  {
    hide Counter;
    if rows != [] {
      var front, row := rows[..|rows| - 1], rows[|rows| - 1];
      SubFacts(front, k);
      var own := Sub(front, k);
      forall i | 0 <= i < |own| ensures Counter(own[i]) == k && (Counter(row) == k ==> own[i].at <= row.at) {
        SubIn(front, k, i);
        var j :| 0 <= j < |front| && front[j] == own[i];
        assert rows[j] == own[i];
      }
    }
  }
}
