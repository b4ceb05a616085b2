/** The precedence order on candidates: `sortCandidates` and its rank arithmetic. */
module PolicyPrecedence {
  import opened Sorting
  import opened PolicyModel
  import opened Text

  const ASSIGNMENT := "assignment"
  const OVERRIDE := "override"
  const TEMPORARY := "temporary"
  const CLIENT := "client"
  const GROUP := "group"

  function SourceRank(source: string): int {
    if source == ASSIGNMENT then 1 else if source == OVERRIDE then 2 else if source == TEMPORARY then 3 else 0
  }

  function TargetRank(target: string): int {
    if target == GROUP then 1 else if target == CLIENT then 2 else 0
  }

  function Rank(c: Candidate): int {
    SourceRank(c.source) * 1000000 + TargetRank(c.targetType) * 100000 + c.priority
  }

  /** Older first, then the smaller id. */
  predicate TieLess(a: Candidate, b: Candidate) {
    a.createdAt < b.createdAt || (a.createdAt == b.createdAt && a.id < b.id)
  }

  predicate CandidateLess(a: Candidate, b: Candidate) {
    if Rank(a) != Rank(b) then Rank(a) > Rank(b) else TieLess(a, b)
  }

  /** What the validators leave of a summed priority, with 100000 on either side for a policy
      and for a row; assignments are not validated, so for them this is an assumption. */
  ghost predicate Bounded(c: Candidate) {
    -200000 <= c.priority <= 200000
  }

  /** sortCandidates, in place, as an insertion sort that keeps the order of equals. */
  method SortCandidates(items: array<Candidate>)
    modifies items
    ensures items[..] == Sort(old(items[..]), CandidateLess)
  {
    var i := items.Length;
    assert items[items.Length..] == [];
    while i > 0
      invariant 0 <= i <= items.Length
      invariant items[..i] == old(items[..i])
      invariant items[i..] == Sort(old(items[i..]), CandidateLess)
    {
      i := i - 1;
      ghost var x, tail := items[i], items[i + 1..];
      assert old(items[i..]) == [x] + old(items[i + 1..]);
      SinkFirst(items, i);
      assert items[i..] == Insert(x, tail, CandidateLess);
    }
    assert items[0..] == items[..] && old(items[0..]) == old(items[..]);
  }

  /** Moves the element at `i` into the sorted rest of the array. */
  method SinkFirst(items: array<Candidate>, i: nat)
    requires i < items.Length
    modifies items
    ensures items[..i] == old(items[..i])
    ensures items[i..] == Insert(old(items[i]), old(items[i + 1..]), CandidateLess)
  {
    hide CandidateLess, Insert;
    var x := items[i];
    ghost var was := items[..];
    var j := i;
    while j + 1 < items.Length && CandidateLess(items[j + 1], x)
      invariant i <= j < items.Length
      invariant forall k :: 0 <= k < i || j < k < items.Length ==> items[k] == was[k]
      invariant forall k :: i <= k < j ==> items[k] == was[k + 1]
      invariant forall k :: i < k <= j ==> CandidateLess(was[k], x)
    {
      items[j] := items[j + 1];
      j := j + 1;
    }
    items[j] := x;
    Sunk(was, items[..], i, j);
    assert items[..][i..] == items[i..] && items[..][..i] == items[..i];
    assert old(items[..])[i + 1..] == old(items[i + 1..]) && old(items[..])[..i] == old(items[..i]);
  }

  /** The element at `i` moved behind those up to `j`, which are all below it. */
  lemma Sunk(was: seq<Candidate>, now: seq<Candidate>, i: nat, j: nat)
    requires i <= j < |was| == |now| && now[j] == was[i]
    requires forall k :: 0 <= k < i || j < k < |was| ==> now[k] == was[k]
    requires forall k :: i <= k < j ==> now[k] == was[k + 1]
    requires forall k :: i < k <= j ==> CandidateLess(was[k], was[i])
    requires j + 1 < |was| ==> !CandidateLess(was[j + 1], was[i])
    ensures now[..i] == was[..i] && now[i..] == Insert(was[i], was[i + 1..], CandidateLess)
  {
    hide CandidateLess, Insert;
    var tail := was[i + 1..];
    InsertAt(was[i], tail, CandidateLess, j - i);
    assert now[i..] == tail[..j - i] + [was[i]] + tail[j - i..];
  }

  lemma CandidateOrder()
    ensures WeakOrder(CandidateLess)
  {
    hide Rank;
  }

  /** Where a kind of source, or of target, stands among its like, the weakest first. */
  ghost function Standing(kinds: seq<string>, kind: string): nat {
    IndexFrom(kinds, kind, 0)
  }

  /** The whole order, for any priorities: sources stand 1000000 apart, targets 100000, and between
      equals the older candidate, then the smaller id comes first. */
  lemma PrecedenceIff(a: Candidate, b: Candidate)
    requires a.source in ["assignment", "override", "temporary"] && b.source in ["assignment", "override", "temporary"]
    requires a.targetType in ["group", "client"] && b.targetType in ["group", "client"]
    ensures var sources, targets := ["assignment", "override", "temporary"], ["group", "client"];
      var margin := 1000000 * (Standing(sources, a.source) - Standing(sources, b.source))
                  + 100000 * (Standing(targets, a.targetType) - Standing(targets, b.targetType));
      CandidateLess(a, b) <==>
        || b.priority - a.priority < margin
        || (b.priority - a.priority == margin && (a.createdAt < b.createdAt || (a.createdAt == b.createdAt && a.id < b.id)))
  {
  }

  /** A temporary override beats a permanent one, and either beats an assignment, whatever
      their targets and, within 200000 of zero, their priorities are. */
  lemma SourceDecides(a: Candidate, b: Candidate)
    requires -200000 <= a.priority <= 200000 && -200000 <= b.priority <= 200000
    requires (a.source, b.source) in [("temporary", "override"), ("temporary", "assignment"), ("override", "assignment")]
    ensures CandidateLess(a, b) && !CandidateLess(b, a)
  {
  }

  /** Within one source, a client target beats a group target exactly while the group's
      priority is ahead by less than 100000; at 100000 the older, then the smaller id wins. */
  lemma ClientBeatsGroupIff(a: Candidate, b: Candidate)
    requires a.source == b.source && a.targetType == CLIENT && b.targetType == GROUP
    ensures CandidateLess(a, b) <==> b.priority - a.priority < 100000 || (b.priority - a.priority == 100000 && TieLess(a, b))
  {
  }

  /** Without a bound on assignment priorities the order of sources breaks: a temporary override
      beats an assignment exactly while the gap is below 2000000, moved by 100000 where one of
      the two targets the client and the other the group; ties again go to age and id. */
  lemma TemporaryBeatsAssignmentIff(t: Candidate, a: Candidate)
    requires t.source == TEMPORARY && a.source == ASSIGNMENT
    ensures var margin := 2000000 + 100000 * (TargetRank(t.targetType) - TargetRank(a.targetType));
      CandidateLess(t, a) <==> a.priority - t.priority < margin || (a.priority - t.priority == margin && TieLess(t, a))
  {
  }

  /** An assignment that outranks every override of a validated priority. */
  lemma UnboundedAssignmentWins()
    ensures var a := Candidate(ASSIGNMENT, 1, CLIENT, "a", 3000000, 1, 1, "");
      forall t: Candidate :: t.source == TEMPORARY && Bounded(t) ==> CandidateLess(a, t)
  {
  }

  /** Primary keys: two different candidates of one source differ in id. */
  ghost predicate DistinctIDs(items: seq<Candidate>) {
    forall x, y :: x in items && y in items && x != y && x.source == y.source ==> x.id != y.id
  }

  /** The sorted list does not depend on the order in which the rows were read. */
  lemma SortForgetsRowOrder(a: seq<Candidate>, b: seq<Candidate>)
    requires multiset(a) == multiset(b) && DistinctIDs(a)
    requires forall c :: c in a ==> Bounded(c) && SourceRank(c.source) > 0
    ensures Sort(a, CandidateLess) == Sort(b, CandidateLess)
  {
    CandidateOrder();
    forall x, y | x in a && y in a && x != y ensures CandidateLess(x, y) || CandidateLess(y, x) {
      if x.source != y.source {
        KnownSources(x.source, y.source);
        if SourceRank(x.source) > SourceRank(y.source) { SourceDecides(x, y); } else { SourceDecides(y, x); }
      }
    }
    SortCanonical(a, b, CandidateLess);
  }

  // ----- the same without a bound on priorities

  /** As Resolve lists them: assignments, then overrides, then temporary overrides. */
  ghost predicate TableOrdered(items: seq<Candidate>) {
    && (forall i :: 0 <= i < |items| ==> SourceRank(items[i].source) > 0)
    && (forall i, j :: 0 <= i < j < |items| ==> SourceRank(items[i].source) <= SourceRank(items[j].source))
  }

  /** The order with remaining ties broken by table. */
  predicate TableLess(a: Candidate, b: Candidate) {
    CandidateLess(a, b) || (!CandidateLess(b, a) && SourceRank(a.source) < SourceRank(b.source))
  }

  lemma TableOrder()
    ensures WeakOrder(TableLess)
  {
    hide Rank, SourceRank;
  }

  /** In front of candidates of its own or later tables, a candidate goes to the same place. */
  lemma {:induction false} InsertByTable(x: Candidate, s: seq<Candidate>)
    requires forall i :: 0 <= i < |s| ==> SourceRank(x.source) <= SourceRank(s[i].source)
    ensures Insert(x, s, CandidateLess) == Insert(x, s, TableLess)
    decreases |s|
  {
    hide CandidateLess;
    if s != [] { InsertByTable(x, s[1..]); }
  }

  /** So on a list in table order, stability is what breaks the ties. */
  lemma {:induction false} SortByTable(s: seq<Candidate>)
    requires TableOrdered(s)
    ensures Sort(s, CandidateLess) == Sort(s, TableLess)
    decreases |s|
  {
    hide CandidateLess, TableLess, SourceRank;
    if s != [] {
      var rest := Sort(s[1..], TableLess);
      SortByTable(s[1..]);
      SortPermutes(s[1..], TableLess);
      forall i | 0 <= i < |rest| ensures SourceRank(s[0].source) <= SourceRank(rest[i].source) {
        assert rest[i] in s[1..];
        var j :| 0 <= j < |s[1..]| && s[1..][j] == rest[i];
        assert s[j + 1] == rest[i];
      }
      InsertByTable(s[0], rest);
    }
  }

  /** Lists in table order sort to one list, whatever the order within each table and whatever
      the priorities. */
  lemma TablesForgetRowOrder(a: seq<Candidate>, b: seq<Candidate>)
    requires multiset(a) == multiset(b) && DistinctIDs(a) && TableOrdered(a) && TableOrdered(b)
    ensures Sort(a, CandidateLess) == Sort(b, CandidateLess)
  {
    hide Rank;
    TableOrder();
    forall x, y | x in a && y in a && x != y ensures TableLess(x, y) || TableLess(y, x) {
      if x.source != y.source { KnownSources(x.source, y.source); }
    }
    SortByTable(a);
    SortByTable(b);
    SortCanonical(a, b, TableLess);
  }

  lemma KnownSources(a: string, b: string)
    requires a != b && SourceRank(a) > 0 && SourceRank(b) > 0
    ensures SourceRank(a) != SourceRank(b)
  {
  }
}
