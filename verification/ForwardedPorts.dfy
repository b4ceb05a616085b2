/** The free-form port list of a client: parsing, capped expansion and membership. */
module ForwardedPorts {
  import opened Text
  import opened Sorting

  /** An inclusive range of ports; a single port is a range of one. */
  datatype Spec = Spec(start: nat, end: nat) {
    predicate Valid() { 1 <= start <= end <= 65535 }
    predicate Has(p: int) { start <= p <= end }
  }

  // ----- parsing

  function Comma(c: char): char {
    if c == ';' then ',' else c
  }

  function Commas(s: string): (r: string)
    ensures |r| == |s|
  {
    seq(|s|, i requires 0 <= i < |s| => Comma(s[i]))
  }

  /** The input with every semicolon turned into a comma, split at the commas. */
  function Tokens(input: string): (ts: seq<string>)
    ensures |ts| >= 1
  {
    Split(Commas(input), ',')
  }

  function ParsePortNumber(s: string): (r: Option<nat>)
    ensures r.Some? ==> 1 <= r.value <= 65535
  {
    match ParseInt(s)
    case None => None
    case Some(n) => if n < 1 || n > 65535 then None else Some(n)
  }

  function ParsePortToken(tok: string): (r: Option<Spec>)
    ensures r.Some? ==> r.value.Valid()
  {
    var cut := Index(tok, '-');
    if cut < |tok| then
      var start, end := ParsePortNumber(TrimSpace(tok[..cut])), ParsePortNumber(TrimSpace(tok[cut + 1..]));
      if start.None? || end.None? || start.value > end.value then None else Some(Spec(start.value, end.value))
    else
      match ParsePortNumber(tok)
      case None => None
      case Some(p) => Some(Spec(p, p))
  }

  /** What one token contributes: nothing when blank or malformed. */
  function TokenSpec(tok: string): (r: Option<Spec>)
    ensures r.Some? ==> r.value.Valid()
  {
    var t := TrimSpace(tok);
    if t == "" then None else ParsePortToken(t)
  }

  /** The token writes one port, or two with a hyphen between them. */
  ghost predicate WritesPorts(tok: string, lo: int, hi: int) {
    var t := TrimSpace(tok);
    if '-' !in t then ParseInt(t) == Some(lo) && hi == lo
    else exists a, b :: t == a + "-" + b && '-' !in a && ParseInt(TrimSpace(a)) == Some(lo) && ParseInt(TrimSpace(b)) == Some(hi)
  }

  /** A token counts exactly if it writes ports from 1 to 65535, the first not above the last. */
  lemma TokenIff(tok: string, spec: Spec)
    ensures TokenSpec(tok) == Some(spec) <==> 1 <= spec.start <= spec.end <= 65535 && WritesPorts(tok, spec.start, spec.end)
  {
    hide TrimSpace, ParseInt;
    var t := TrimSpace(tok);
    var cut := Index(t, '-');
    NoPort();
    if cut < |t| {
      assert t == t[..cut] + "-" + t[cut + 1..];
      forall a, b | t == a + "-" + b && '-' !in a ensures a == t[..cut] && b == t[cut + 1..] {
        IndexFirst(a, '-', b);
      }
    }
  }

  lemma NoPort()
    ensures ParseInt("") == None
  {
  }

  /** The specs of the first `n` tokens, each once. */
  function SpecsOf(ts: seq<string>, n: nat): (specs: seq<Spec>)
    requires n <= |ts|
    ensures forall i :: 0 <= i < |specs| ==> specs[i].Valid()
  {
    if n == 0 then [] else
      var front := SpecsOf(ts, n - 1);
      match TokenSpec(ts[n - 1])
      case None => front
      case Some(spec) => if spec in front then front else front + [spec]
  }

  function Parsed(input: string): (specs: seq<Spec>)
    ensures forall i :: 0 <= i < |specs| ==> specs[i].Valid()
  {
    SpecsOf(Tokens(input), |Tokens(input)|)
  }

  /** The key parseForwardedPorts remembers a spec by. */
  function Key(s: Spec): string {
    NatToString(s.start) + "-" + NatToString(s.end)
  }

  lemma KeyInjective(a: Spec, b: Spec)
    requires Key(a) == Key(b)
    ensures a == b
  {
    var k := Key(a);
    KeyCut(a);
    KeyCut(b);
    assert NatToString(a.start) == NatToString(b.start) && NatToString(a.end) == NatToString(b.end);
    assert NatValue(NatToString(a.start)) == a.start && NatValue(NatToString(b.start)) == b.start;
    assert NatValue(NatToString(a.end)) == a.end && NatValue(NatToString(b.end)) == b.end;
  }

  lemma KeyCut(a: Spec)
    ensures var k := Key(a); var cut := Index(k, '-'); cut < |k| && k[..cut] == NatToString(a.start) && k[cut + 1..] == NatToString(a.end)
  {
    var s, e := NatToString(a.start), NatToString(a.end);
    NoDash(s);
    IndexFirst(s, '-', e);
    assert Key(a) == s + ['-'] + e;
    assert (s + ['-'] + e)[|s| + 1..] == e;
  }

  lemma NoDash(s: string)
    requires AllDigits(s)
    ensures '-' !in s && ',' !in s && ';' !in s
  {
  }

  lemma SpecsStep(ts: seq<string>, n: nat)
    requires n < |ts|
    ensures SpecsOf(ts, n + 1) == var spec := TokenSpec(ts[n]);
      if spec.None? || spec.value in SpecsOf(ts, n) then SpecsOf(ts, n) else SpecsOf(ts, n) + [spec.value]
  {
  }

  lemma BlankInput()
    ensures Parsed("") == []
  {
    assert Tokens("") == [""];
    assert TokenSpec("") == None;
    assert SpecsOf([""], 1) == [];
  }

  method ParseForwardedPorts(input: string) returns (specs: seq<Spec>)
    ensures specs == Parsed(input)
  {
    hide SpecsOf, Key, TrimSpace, ParsePortToken, Tokens;
    specs := [];
    if input == "" {
      BlankInput();
      return;
    }
    var tokens := Tokens(input);
    var seen: set<string> := {};
    SpecsStart(tokens);
    for i := 0 to |tokens|
      invariant specs == SpecsOf(tokens, i)
      invariant forall s: Spec :: Key(s) in seen <==> s in specs
    {
      SpecsStep(tokens, i);
      var tok := TrimSpace(tokens[i]);
      if tok == "" {
        continue;
      }
      var spec := ParsePortToken(tok);
      if spec == None {
        continue;
      }
      var key := Key(spec.value);
      if key in seen {
        continue;
      }
      forall s: Spec | Key(s) == key ensures s == spec.value {
        KeyInjective(s, spec.value);
      }
      seen := seen + {key};
      specs := specs + [spec.value];
    }
  }

  lemma SpecsStart(ts: seq<string>)
    ensures SpecsOf(ts, 0) == []
  {
  }

  // ----- membership

  ghost predicate InSpecs(specs: seq<Spec>, p: int) {
    exists i :: 0 <= i < |specs| && specs[i].Has(p)
  }

  /** Some token of the text covers the port. */
  ghost predicate Covers(input: string, p: int) {
    exists k :: 0 <= k < |Tokens(input)| && TokenSpec(Tokens(input)[k]).Some? && TokenSpec(Tokens(input)[k]).value.Has(p)
  }

  lemma {:induction false} SpecsCover(ts: seq<string>, n: nat, p: int)
    requires n <= |ts|
    ensures InSpecs(SpecsOf(ts, n), p) <==> exists k :: 0 <= k < n && TokenSpec(ts[k]).Some? && TokenSpec(ts[k]).value.Has(p)
  {
    hide TokenSpec;
    if n > 0 {
      SpecsCover(ts, n - 1, p);
      var front, specs := SpecsOf(ts, n - 1), SpecsOf(ts, n);
      if InSpecs(front, p) {
        var i :| 0 <= i < |front| && front[i].Has(p);
        assert specs[i] == front[i];
      }
      if TokenSpec(ts[n - 1]).Some? {
        var spec := TokenSpec(ts[n - 1]).value;
        assert spec in specs;
        var i :| 0 <= i < |specs| && specs[i] == spec;
        assert spec.Has(p) ==> specs[i].Has(p);
      }
    }
  }

  /** Dropping bad tokens and duplicates changes no membership. */
  lemma ParsedCovers(input: string, p: int)
    ensures InSpecs(Parsed(input), p) <==> Covers(input, p)
  {
    SpecsCover(Tokens(input), |Tokens(input)|, p);
  }

  method ForwardedPortsInclude(input: string, port: int) returns (r: bool)
    ensures r <==> Covers(input, port)
  {
    hide Covers, Parsed;
    ParsedCovers(input, port);
    var specs := ParseForwardedPorts(input);
    for i := 0 to |specs|
      invariant forall k :: 0 <= k < i ==> !specs[k].Has(port)
    {
      if port >= specs[i].start && port <= specs[i].end {
        assert specs[i].Has(port);
        return true;
      }
    }
    return false;
  }

  // ----- expansion

  /** The inner loop: ports p..end not picked yet, until there are `limit`. */
  function PickRange(ports: seq<int>, p: int, end: int, limit: nat): seq<int>
    decreases end - p + 1
  {
    if p > end || |ports| >= limit then ports
    else if p in ports then PickRange(ports, p + 1, end, limit)
    else PickRange(ports + [p], p + 1, end, limit)
  }

  /** What the first `n` specs give, in picking order. */
  function Picked(specs: seq<Spec>, limit: nat, n: nat): seq<int>
    requires n <= |specs|
  {
    if n == 0 then [] else PickRange(Picked(specs, limit, n - 1), specs[n - 1].start, specs[n - 1].end, limit)
  }

  function IntLess(): (int, int) -> bool {
    (a: int, b: int) => a < b
  }

  function Expansion(input: string, limit: nat): seq<int> {
    Sort(Picked(Parsed(input), limit, |Parsed(input)|), IntLess())
  }

  ghost predicate NoDup(s: seq<int>) {
    forall i, j :: 0 <= i < j < |s| ==> s[i] != s[j]
  }

  lemma {:induction false} PickRangeFacts(ports: seq<int>, p: int, end: int, limit: nat)
    requires NoDup(ports) && |ports| <= limit
    ensures var r := PickRange(ports, p, end, limit);
      && NoDup(r) && |ports| <= |r| <= limit
      && (forall x :: x in r ==> x in ports || p <= x <= end)
      && (forall x :: x in ports ==> x in r)
      && (|r| < limit ==> forall x :: p <= x <= end ==> x in r)
    decreases end - p + 1
  {
    if p <= end && |ports| < limit {
      if p in ports {
        PickRangeFacts(ports, p + 1, end, limit);
      } else {
        PickRangeFacts(ports + [p], p + 1, end, limit);
        assert p in ports + [p];
        assert forall x :: x in ports ==> x in ports + [p];
      }
    }
  }

  lemma {:induction false} PickedFacts(specs: seq<Spec>, limit: nat, n: nat)
    requires n <= |specs|
    ensures var r := Picked(specs, limit, n);
      && NoDup(r) && |r| <= limit
      && (forall x :: x in r ==> InSpecs(specs, x))
      && (|r| < limit ==> forall x, i :: 0 <= i < n && specs[i].Has(x) ==> x in r)
  {
    if n > 0 {
      PickedFacts(specs, limit, n - 1);
      PickRangeFacts(Picked(specs, limit, n - 1), specs[n - 1].start, specs[n - 1].end, limit);
      forall x | x in Picked(specs, limit, n) ensures InSpecs(specs, x) {
        if x !in Picked(specs, limit, n - 1) { assert specs[n - 1].Has(x); }
      }
    }
  }

  /** All ports the text covers. */
  ghost function Union(input: string): set<int> {
    set p | 1 <= p <= 65535 && Covers(input, p)
  }

  ghost function Elements(s: seq<int>): set<int> {
    set x | x in s
  }

  lemma {:induction false} NoDupSize(s: seq<int>)
    requires NoDup(s)
    ensures |Elements(s)| == |s|
    decreases |s|
  {
    if s != [] {
      var front := s[..|s| - 1];
      NoDupSize(front);
      assert Elements(s) == Elements(front) + {s[|s| - 1]};
      assert s[|s| - 1] !in front;
    }
  }

  lemma SubsetSize(a: set<int>, b: set<int>)
    requires a <= b
    ensures |a| <= |b| && (|a| == |b| ==> a == b)
  {
    assert b == a + (b - a) && a !! b - a;
  }

  ghost predicate AscendingInts(s: seq<int>) {
    forall i, j :: 0 <= i < j < |s| ==> s[i] < s[j]
  }

  lemma {:induction false} PermutedNoDup(a: seq<int>, b: seq<int>)
    requires NoDup(a) && multiset(a) == multiset(b)
    ensures NoDup(b)
  {
    forall i, j | 0 <= i < j < |b| ensures b[i] != b[j] {
      OnceIn(a, b[i]);
      if b[i] == b[j] { TwiceIn(b, i, j); }
    }
  }

  lemma TwiceIn(s: seq<int>, i: nat, j: nat)
    requires i < j < |s| && s[i] == s[j]
    ensures multiset(s)[s[i]] >= 2
  {
    assert s == s[..j] + [s[j]] + s[j + 1..];
    assert s[i] in s[..j];
    assert s[i] in multiset(s[..j]);
  }

  lemma {:induction false} OnceIn(s: seq<int>, x: int)
    requires NoDup(s)
    ensures multiset(s)[x] <= 1
    decreases |s|
  {
    if s != [] {
      var front := s[..|s| - 1];
      OnceIn(front, x);
      assert s == front + [s[|s| - 1]];
      if s[|s| - 1] == x { assert x !in front && x !in multiset(front); }
    }
  }

  lemma IntLessWeak()
    ensures WeakOrder(IntLess())
  {
  }

  /** The expansion is ascending and free of duplicates, takes only ports the text covers, and
      takes as many as there are up to the limit; below the limit it takes them all. */
  lemma ExpansionExact(input: string, limit: nat)
    ensures var e := Expansion(input, limit);
      && AscendingInts(e)
      && (forall p :: p in e ==> Covers(input, p) && 1 <= p <= 65535)
      && |e| == (if limit <= |Union(input)| then limit else |Union(input)|)
      && (|Union(input)| <= limit ==> forall p :: p in e <==> Covers(input, p))
  {
    var specs := Parsed(input);
    var picked := Picked(specs, limit, |specs|);
    var e := Expansion(input, limit);
    PickedFacts(specs, limit, |specs|);
    IntLessWeak();
    SortSorted(picked, IntLess());
    SortPermutes(picked, IntLess());
    PermutedNoDup(picked, e);
    forall i, j | 0 <= i < j < |e| ensures e[i] < e[j] {
      assert !IntLess()(e[j], e[i]) && e[i] != e[j];
    }
    PickedElements(input, limit);
    NoDupSize(picked);
    SubsetSize(Elements(picked), Union(input));
  }

  lemma PickedElements(input: string, limit: nat)
    ensures var picked := Picked(Parsed(input), limit, |Parsed(input)|);
      && Elements(picked) <= Union(input)
      && (|picked| < limit ==> Elements(picked) == Union(input))
      && (forall p :: p in picked ==> Covers(input, p) && 1 <= p <= 65535)
      && (forall p :: p in Union(input) <==> Covers(input, p))
  {
    var specs := Parsed(input);
    PickedFacts(specs, limit, |specs|);
    forall p ensures InSpecs(specs, p) <==> Covers(input, p) {
      ParsedCovers(input, p);
    }
    forall p | InSpecs(specs, p) ensures 1 <= p <= 65535 {
      var i :| 0 <= i < |specs| && specs[i].Has(p);
      assert specs[i].Valid();
    }
  }

  method ExpandUpTo(input: string, limit: nat) returns (ports: seq<int>)
    ensures ports == Expansion(input, limit)
  {
    hide Picked, Parsed;
    var seen: set<int> := {};
    ports := [];
    var specs := ParseForwardedPorts(input);
    var i := 0;
    PickedStart(specs, limit);
    label outer: while i < |specs|
      invariant 0 <= i <= |specs|
      invariant forall x :: x in seen <==> x in ports
      invariant ports == Picked(specs, limit, i)
    {
      var p, end: int := specs[i].start, specs[i].end;
      PickedStep(specs, limit, i);
      while p <= end
        invariant forall x :: x in seen <==> x in ports
        invariant PickRange(ports, p, end, limit) == Picked(specs, limit, i + 1)
        decreases end - p + 1
      {
        if |ports| >= limit {
          Full(specs, limit, i + 1, |specs|);
          i := |specs|;
          break outer;
        }
        if p !in seen {
          seen := seen + {p};
          ports := ports + [p];
        }
        p := p + 1;
      }
      i := i + 1;
    }
    ports := Sort(ports, IntLess());
  }

  lemma PickedStart(specs: seq<Spec>, limit: nat)
    ensures Picked(specs, limit, 0) == []
  {
  }

  lemma PickedStep(specs: seq<Spec>, limit: nat, i: nat)
    requires i < |specs|
    ensures Picked(specs, limit, i + 1) == PickRange(Picked(specs, limit, i), specs[i].start, specs[i].end, limit)
  {
  }

  /** Once full, later specs add nothing. */
  lemma {:induction false} Full(specs: seq<Spec>, limit: nat, i: nat, n: nat)
    requires i <= n <= |specs| && |Picked(specs, limit, i)| >= limit
    ensures Picked(specs, limit, n) == Picked(specs, limit, i)
    decreases n
  {
    if i < n { Full(specs, limit, i, n - 1); }
  }

  const MAX_FORWARDED_PORTS: nat := 100

  method ExpandForwardedPorts(input: string) returns (ports: seq<int>)
    ensures ports == Expansion(input, 100)
  {
    ports := ExpandUpTo(input, MAX_FORWARDED_PORTS);
  }

  /** Probing one past the cap tells "over the cap" from "at the cap". */
  method ExceedsForwardedPortsCap(input: string) returns (r: bool)
    ensures r <==> |Union(input)| > 100
  {
    var ports := ExpandUpTo(input, MAX_FORWARDED_PORTS + 1);
    ExpansionExact(input, MAX_FORWARDED_PORTS + 1);
    r := |ports| > MAX_FORWARDED_PORTS;
  }

  // ----- printing and reading back

  function Print(s: Spec): string {
    if s.start == s.end then NatToString(s.start) else Key(s)
  }

  function PrintAll(specs: seq<Spec>): (ts: seq<string>)
    ensures |ts| == |specs|
    ensures forall i :: 0 <= i < |specs| ==> ts[i] == Print(specs[i])
  {
    seq(|specs|, i requires 0 <= i < |specs| => Print(specs[i]))
  }

  lemma TrimDigits(t: string)
    requires t != "" && IsDigit(t[0]) && IsDigit(t[|t| - 1])
    ensures TrimSpace(t) == t
  {
    TrimClean(t);
  }

  lemma ReadNumber(n: nat)
    requires 1 <= n <= 65535
    ensures TrimSpace(NatToString(n)) == NatToString(n) && ParsePortNumber(NatToString(n)) == Some(n)
  {
    var s := NatToString(n);
    assert IsDigit(s[0]) && IsDigit(s[|s| - 1]);
    TrimDigits(s);
    ParseIntToString(n);
  }

  lemma ReadSpec(s: Spec)
    requires s.Valid()
    ensures TokenSpec(Print(s)) == Some(s)
  {
    hide TrimSpace, ParseInt, ParsePortNumber, NatToString, NatValue;
    var t := Print(s);
    ReadNumber(s.start);
    ReadNumber(s.end);
    if s.start == s.end {
      NoDash(t);
      assert Index(t, '-') == |t|;
    } else {
      KeyCut(s);
      var a, b := NatToString(s.start), NatToString(s.end);
      assert IsDigit(a[0]) && IsDigit(b[|b| - 1]) && t[0] == a[0] && t[|t| - 1] == b[|b| - 1];
      TrimDigits(t);
    }
  }

  lemma {:induction false} ReadSpecs(ts: seq<string>, specs: seq<Spec>, n: nat)
    requires n <= |ts| == |specs|
    requires forall i :: 0 <= i < |specs| ==> TokenSpec(ts[i]) == Some(specs[i])
    requires forall i, j :: 0 <= i < j < |specs| ==> specs[i] != specs[j]
    ensures SpecsOf(ts, n) == specs[..n]
  {
    hide TokenSpec;
    if n > 0 {
      ReadSpecs(ts, specs, n - 1);
      assert specs[..n] == specs[..n - 1] + [specs[n - 1]];
    }
  }

  /** A list of distinct ranges, printed with commas or semicolons, is read back as it was. */
  lemma PrintParse(specs: seq<Spec>, sep: char)
    requires specs != [] && (sep == ',' || sep == ';')
    requires forall i :: 0 <= i < |specs| ==> specs[i].Valid()
    requires forall i, j :: 0 <= i < j < |specs| ==> specs[i] != specs[j]
    ensures Parsed(Join(PrintAll(specs), [sep])) == specs
  {
    var ts := PrintAll(specs);
    forall i | 0 <= i < |specs| ensures ',' !in ts[i] && ';' !in ts[i] && TokenSpec(ts[i]) == Some(specs[i]) {
      NoDash(NatToString(specs[i].start));
      NoDash(NatToString(specs[i].end));
      ReadSpec(specs[i]);
    }
    CommaJoin(ts, sep);
    SplitJoin(ts, ',');
    ReadSpecs(ts, specs, |ts|);
    assert specs[..|specs|] == specs;
  }

  lemma {:induction false} CommaJoin(ts: seq<string>, sep: char)
    requires sep == ',' || sep == ';'
    requires forall i :: 0 <= i < |ts| ==> ';' !in ts[i]
    ensures Commas(Join(ts, [sep])) == Join(ts, ",")
    decreases |ts|
  {
    if |ts| == 1 {
      assert forall k :: 0 <= k < |ts[0]| ==> ts[0][k] in ts[0];
    } else if |ts| > 1 {
      assert forall k :: 0 <= k < |ts[0]| ==> ts[0][k] in ts[0];
      CommaJoin(ts[1..], sep);
      var a, b := Join(ts, [sep]), Join(ts, ",");
      var ra, rb := Join(ts[1..], [sep]), Join(ts[1..], ",");
      assert Commas(ra) == rb;
      assert a == ts[0] + [sep] + ra && b == ts[0] + "," + rb;
      forall k | 0 <= k < |a| ensures Comma(a[k]) == b[k] {
        if k > |ts[0]| {
          assert a[k] == ra[k - |ts[0]| - 1];
          assert Commas(ra)[k - |ts[0]| - 1] == Comma(ra[k - |ts[0]| - 1]);
        }
      }
    }
  }
}
