/** AmneziaWG obfuscation parameters: the validators, and the generator that must satisfy them. */
module Params {
  import opened Text

  const MAX_UINT16: int := 65535
  const MAX_UINT32: int := 4294967295

  /** The largest H the generator may use (2^31 - 1). */
  const H_MAX: int := 2147483647

  datatype Obfuscation = Obfuscation(
    jc: int, jmin: int, jmax: int,
    s1: int, s2: int, s3: int, s4: int,
    h: seq<string>,                        // H1-H4
    i: seq<string>,                        // I1-I5
    headerProtectionKey: string, contentPaddingAddition: string,
    rekeyAfterTime: string, rekeyTimeout: string, rejectAfterTime: string, keepaliveTimeout: string,
    maxHandshakeAttempts: string, randomTrailers: bool, disableCookies: bool)

  // ----- ranges

  /** "N" or "low-high"; None when blank or not numeric. Bounds are not checked here. */
  function ParseUintRange(text: string): (r: Option<(int, int)>) {
    var v := TrimSpace(text);
    if v == "" then None else
      var cut := Index(v, '-');
      if cut < |v| then
        var lo, hi := ParseInt(TrimSpace(v[..cut])), ParseInt(TrimSpace(v[cut + 1..]));
        if lo.None? || hi.None? then None else Some((lo.value, hi.value))
      else
        match ParseInt(v)
        case None => None
        case Some(n) => Some((n, n))
  }

  predicate Control(c: char) {
    c < ' ' || c == '\U{7F}'
  }

  /** ValidateConfigValue. */
  predicate NoControl(v: string) {
    forall k :: 0 <= k < |v| ==> !Control(v[k])
  }

  /** validateUintRange: blank, or a range within bounds with nothing hidden in it. */
  predicate RangeOk(v: string, minAllowed: int) {
    TrimSpace(v) == "" ||
    (NoControl(v) && ParseUintRange(v).Some? &&
     var (lo, hi) := ParseUintRange(v).value; minAllowed <= lo <= hi <= MAX_UINT32)
  }

  /** The text writes one number, or two with a hyphen between them. */
  ghost predicate Writes(text: string, lo: int, hi: int) {
    var v := TrimSpace(text);
    if '-' !in v then ParseInt(v) == Some(lo) && hi == lo
    else exists a, b :: v == a + "-" + b && '-' !in a && ParseInt(TrimSpace(a)) == Some(lo) && ParseInt(TrimSpace(b)) == Some(hi)
  }

  lemma ParseUintRangeIff(text: string, lo: int, hi: int)
    ensures ParseUintRange(text) == Some((lo, hi)) <==> Writes(text, lo, hi)
  {
    hide TrimSpace, ParseInt;
    var v := TrimSpace(text);
    var cut := Index(v, '-');
    NoNumber();
    if cut < |v| {
      assert v == v[..cut] + "-" + v[cut + 1..];
      forall a, b | v == a + "-" + b && '-' !in a ensures a == v[..cut] && b == v[cut + 1..] {
        IndexFirst(a, '-', b);
      }
    }
  }

  lemma NoControlIff(v: string)
    ensures NoControl(v) <==> forall c :: c in v ==> ' ' <= c && c != '\U{7F}'
  {
    assert forall k :: 0 <= k < |v| ==> v[k] in v;
  }

  lemma NoNumber()
    ensures ParseInt("") == None
  {
  }

  /** A range field is accepted exactly if it is blank, or printable throughout and writes a range
      from the minimum to 2^32 - 1. */
  lemma RangeOkIff(v: string, minAllowed: int)
    ensures RangeOk(v, minAllowed) <==>
      || TrimSpace(v) == ""
      || ((forall c :: c in v ==> ' ' <= c && c != '\U{7F}') && exists lo, hi :: minAllowed <= lo <= hi <= 4294967295 && Writes(v, lo, hi))
  {
    hide ParseUintRange, Writes, TrimSpace;
    forall lo, hi ensures ParseUintRange(v) == Some((lo, hi)) <==> Writes(v, lo, hi) {
      ParseUintRangeIff(v, lo, hi);
    }
    NoControlIff(v);
    if ParseUintRange(v).Some? {
      assert Writes(v, ParseUintRange(v).value.0, ParseUintRange(v).value.1);
    }
  }

  function PrintRange(lo: nat, hi: nat): string {
    NatToString(lo) + "-" + NatToString(hi)
  }

  lemma DigitEdges(t: string)
    requires t != "" && IsDigit(t[0]) && IsDigit(t[|t| - 1])
    ensures TrimSpace(t) == t
  {
    TrimClean(t);
  }

  lemma NumberFacts(n: nat)
    requires n <= MAX_UINT32
    ensures var t := NatToString(n);
      TrimSpace(t) == t && ParseInt(t) == Some(n) && '-' !in t && NoControl(t) && t != "" && IsDigit(t[0]) && IsDigit(t[|t| - 1])
  {
    DigitEdges(NatToString(n));
    ParseIntToString(n);
  }

  /** A printed number reads back as that number, alone. */
  lemma ParseNumber(n: nat)
    requires n <= MAX_UINT32
    ensures ParseUintRange(NatToString(n)) == Some((n, n))
  {
    hide TrimSpace, ParseInt, NatToString;
    NumberFacts(n);
    assert Index(NatToString(n), '-') == |NatToString(n)|;
  }

  /** A printed range reads back as the two bounds. */
  lemma ParsePrintRange(lo: nat, hi: nat)
    requires lo <= MAX_UINT32 && hi <= MAX_UINT32
    ensures PrintRange(lo, hi) != "" && NoControl(PrintRange(lo, hi))
    ensures ParseUintRange(PrintRange(lo, hi)) == Some((lo, hi))
  {
    hide TrimSpace, ParseInt, NatToString;
    NumberFacts(lo);
    NumberFacts(hi);
    var a, b := NatToString(lo), NatToString(hi);
    var v := PrintRange(lo, hi);
    assert v == a + ['-'] + b;
    assert v[0] == a[0] && v[|v| - 1] == b[|b| - 1];
    DigitEdges(v);
    IndexFirst(a, '-', b);
    assert v[..|a|] == a && v[|a| + 1..] == b;
  }

  // ----- the CPS chain of I1-I5

  /** How many leading spaces. */
  function Blanks(s: string, k: nat): (n: nat)
    requires k <= |s|
    ensures k <= n <= |s|
    decreases |s| - k
  {
    if k < |s| && IsSpace(s[k]) then Blanks(s, k + 1) else k
  }

  function WordEnd(s: string, k: nat): (n: nat)
    requires k <= |s|
    ensures k <= n <= |s|
    decreases |s| - k
  {
    if k < |s| && !IsSpace(s[k]) then WordEnd(s, k + 1) else k
  }

  /** The first of strings.Fields, or "" when there is none. */
  function FirstField(s: string): string {
    s[Blanks(s, 0)..WordEnd(s, Blanks(s, 0))]
  }

  /** The tags amneziawg-go can build. */
  predicate KnownTag(t: string) {
    t == "b" || t == "t" || t == "r" || t == "rc" || t == "rd" || t == "d" || t == "ds" || t == "dz"
  }

  /** From position k on, every `<` opens a tag that is closed, named and known. */
  predicate ChainFrom(s: string, k: nat)
    requires k <= |s|
    decreases |s| - k
  {
    var start := IndexFrom(s, '<', k);
    if start == |s| then true else
      var end := IndexFrom(s, '>', start);
      end < |s| && KnownTag(FirstField(s[start + 1..end])) && ChainFrom(s, end + 1)
  }

  predicate ChainOk(s: string) {
    TrimSpace(s) == "" || ChainFrom(s, 0)
  }

  lemma ChainStep(s: string, k: nat)
    requires k <= |s|
    ensures var start := IndexFrom(s, '<', k);
      ChainFrom(s, k) <==> start == |s| || (var end := IndexFrom(s, '>', start);
        end < |s| && KnownTag(FirstField(s[start + 1..end])) && ChainFrom(s, end + 1))
    ensures !KnownTag("")
  {
  }

  method ValidateObfChain(spec: string) returns (ok: bool)
    ensures ok <==> ChainOk(spec)
  {
    hide TrimSpace, FirstField, ChainFrom, KnownTag, IsSpace;
    if TrimSpace(spec) == "" {
      return true;
    }
    var remaining := 0;
    while true
      invariant remaining <= |spec|
      invariant ChainFrom(spec, 0) <==> ChainFrom(spec, remaining)
      decreases |spec| - remaining
    {
      ChainStep(spec, remaining);
      var start := IndexFrom(spec, '<', remaining);
      if start == |spec| {
        return true;
      }
      var end := IndexFrom(spec, '>', start);
      if end == |spec| {
        return false;
      }
      var field := FirstField(spec[start + 1..end]);
      if field == "" {
        return false;
      }
      if !KnownTag(field) {
        return false;
      }
      remaining := end + 1;
    }
  }

  // ----- chains, told from the text

  /** `f` is the first word of `s`, or "" where there is none. */
  ghost predicate FirstWord(s: string, f: string) {
    exists i: nat :: WordAt(s, f, i)
  }

  ghost predicate WordAt(s: string, f: string, i: nat) {
    && i + |f| <= |s| && s[i..i + |f|] == f
    && (forall k :: 0 <= k < i ==> IsSpace(s[k])) && (forall k :: i <= k < i + |f| ==> !IsSpace(s[k]))
    && (i + |f| < |s| ==> f != "" && IsSpace(s[i + |f|]))
  }

  /** A tag as it stands between its brackets. */
  ghost predicate Tag(body: string) {
    '>' !in body && exists f :: f in {"b", "t", "r", "rc", "rd", "d", "ds", "dz"} && FirstWord(body, f)
  }

  /** Text, a tag in brackets, text, a tag, and so on, ending in text without an opening bracket. */
  ghost predicate Chain(s: string)
    decreases |s|
  {
    || '<' !in s
    || exists text, body, rest :: Link(s, text, body, rest) && Chain(rest)
  }

  ghost predicate Link(s: string, text: string, body: string, rest: string)
    ensures Link(s, text, body, rest) ==> |rest| < |s|
  {
    s == text + "<" + body + ">" + rest && '<' !in text && Tag(body)
  }

  lemma {:induction false} BlanksAre(s: string, k: nat)
    requires k <= |s|
    ensures forall j :: k <= j < Blanks(s, k) ==> IsSpace(s[j])
    ensures Blanks(s, k) < |s| ==> !IsSpace(s[Blanks(s, k)])
    decreases |s| - k
  {
    hide IsSpace;
    if k < |s| && IsSpace(s[k]) { BlanksAre(s, k + 1); }
  }

  lemma {:induction false} WordIs(s: string, k: nat)
    requires k <= |s|
    ensures forall j :: k <= j < WordEnd(s, k) ==> !IsSpace(s[j])
    ensures WordEnd(s, k) < |s| ==> IsSpace(s[WordEnd(s, k)])
    decreases |s| - k
  {
    hide IsSpace;
    if k < |s| && !IsSpace(s[k]) { WordIs(s, k + 1); }
  }

  lemma FirstFieldSpec(s: string)
    ensures FirstWord(s, FirstField(s))
  {
    hide IsSpace, Blanks, WordEnd;
    var i := Blanks(s, 0);
    BlanksAre(s, 0);
    WordIs(s, i);
    assert WordAt(s, FirstField(s), i);
  }

  lemma FirstWordUnique(s: string, f: string, g: string)
    requires FirstWord(s, f) && FirstWord(s, g)
    ensures f == g
  {
    hide IsSpace;
    var i: nat :| WordAt(s, f, i);
    var j: nat :| WordAt(s, g, j);
    assert f != "" ==> !IsSpace(s[i]);
    assert g != "" ==> !IsSpace(s[j]);
    assert i == j;
  }

  lemma TagIff(body: string)
    requires '>' !in body
    ensures KnownTag(FirstField(body)) <==> Tag(body)
  {
    hide FirstWord, FirstField;
    FirstFieldSpec(body);
    var f := FirstField(body);
    assert KnownTag(f) <==> f in {"b", "t", "r", "rc", "rd", "d", "ds", "dz"};
    forall g | FirstWord(body, g) ensures f == g {
      FirstWordUnique(body, f, g);
    }
  }

  lemma {:induction false} ChainFromIff(s: string, k: nat)
    requires k <= |s|
    ensures ChainFrom(s, k) <==> Chain(s[k..])
    decreases |s| - k
  {
    hide FirstField, KnownTag, Tag, Link, IndexFrom;
    var start, t := IndexFrom(s, '<', k), s[k..];
    forall text, body, rest ensures Link(t, text, body, rest) <==> LinkedAt(s, k, text, body, rest) {
      LinkIff(s, k, text, body, rest);
    }
    NoBracket(s, k);
    if start < |s| {
      var end := IndexFrom(s, '>', start);
      if end < |s| {
        var text, body, rest := s[k..start], s[start + 1..end], s[end + 1..];
        TagIff(body);
        ChainFromIff(s, end + 1);
        assert Tag(body) ==> Link(t, text, body, rest);
      }
    }
  }

  lemma NoBracket(s: string, k: nat)
    requires k <= |s|
    ensures '<' !in s[k..] <==> IndexFrom(s, '<', k) == |s|
  {
    hide IndexFrom;
    var start, t := IndexFrom(s, '<', k), s[k..];
    assert forall j :: 0 <= j < |t| ==> t[j] == s[k + j];
    assert start < |s| ==> t[start - k] == '<';
  }

  /** Where the searches find the brackets of the first tag. */
  ghost predicate LinkedAt(s: string, k: nat, text: string, body: string, rest: string)
    requires k <= |s|
  {
    var start := IndexFrom(s, '<', k);
    start < |s| &&
    var end := IndexFrom(s, '>', start);
    end < |s| && text == s[k..start] && body == s[start + 1..end] && rest == s[end + 1..] && Tag(body)
  }

  lemma LinkIff(s: string, k: nat, text: string, body: string, rest: string)
    requires k <= |s|
    ensures Link(s[k..], text, body, rest) <==> LinkedAt(s, k, text, body, rest)
  {
    hide Tag;
    if Link(s[k..], text, body, rest) {
      LinkAt(s, k, text, body, rest);
    }
  }

  lemma LinkAt(s: string, k: nat, text: string, body: string, rest: string)
    requires k <= |s| && Link(s[k..], text, body, rest)
    ensures LinkedAt(s, k, text, body, rest)
  {
    hide Tag, IndexFrom;
    TagClosed(body);
    var t, i := s[k..], k + |text|;
    var j := i + 1 + |body|;
    assert t[..|text|] == text && t[|text|] == '<';
    assert t[|text| + 1..|text| + 1 + |body|] == body && t[|text| + 1 + |body|] == '>' && t[|text| + 2 + |body|..] == rest;
    assert s[i] == '<' && s[j] == '>';
    assert forall m :: k <= m < i ==> s[m] == text[m - k];
    assert forall m :: i < m < j ==> s[m] == body[m - i - 1];
    assert IndexFrom(s, '<', k) == i;
    assert IndexFrom(s, '>', i) == j;
  }

  lemma TagClosed(body: string)
    requires Tag(body)
    ensures '>' !in body
  {
  }

  /** An I1-I5 field is accepted exactly if it is blank or a chain of closed, known tags. */
  lemma ChainOkIff(s: string)
    ensures ChainOk(s) <==> TrimSpace(s) == "" || Chain(s)
  {
    hide TrimSpace, Chain, ChainFrom;
    assert s[0..] == s;
    ChainFromIff(s, 0);
  }

  /** The generator's own signature packet is a valid chain. */
  lemma RandomChainOk(n: nat)
    ensures ChainOk("<r " + NatToString(n) + ">")
  {
    hide NatToString, ChainFrom, FirstField, TrimSpace;
    var d := NatToString(n);
    var s := "<r " + d + ">";
    assert s[0] == '<' && s[1] == 'r' && s[2] == ' ';
    assert forall k :: 3 <= k < |s| - 1 ==> s[k] == d[k - 3];
    assert s[|s| - 1] == '>';
    assert IndexFrom(s, '<', 0) == 0 && IndexFrom(s, '>', 0) == |s| - 1;
    var body := s[1..|s| - 1];
    assert body[0] == 'r' && body[1] == ' ' && |body| >= 2;
    RandomField(body);
    ChainStep(s, 0);
    ChainStep(s, |s|);
  }

  lemma RandomField(body: string)
    requires |body| >= 2 && body[0] == 'r' && body[1] == ' '
    ensures FirstField(body) == "r" && KnownTag(FirstField(body))
  {
    assert Blanks(body, 0) == 0 && WordEnd(body, 1) == 1 && WordEnd(body, 0) == 1;
  }

  // ----- H1-H4

  /** What header values message type n+1 answers to: a blank one keeps WireGuard's own. */
  function Header(h: seq<string>, n: nat): (int, int)
    requires n < |h|
  {
    match ParseUintRange(h[n])
    case Some(r) => r
    case None => (n + 1, n + 1)
  }

  predicate Overlap(a: (int, int), b: (int, int)) {
    a.0 <= b.1 && b.0 <= a.1
  }

  predicate NoOverlap(h: seq<string>) {
    forall i, j :: 0 <= i < j < |h| ==> !Overlap(Header(h, i), Header(h, j))
  }

  method ValidateHNoOverlap(h: seq<string>) returns (ok: bool)
    requires |h| == 4
    ensures ok <==> NoOverlap(h)
  {
    hide ParseUintRange;
    var lo, hi := new int[4], new int[4];
    for i := 0 to 4
      invariant forall k :: 0 <= k < i ==> (lo[k], hi[k]) == Header(h, k)
    {
      var r := ParseUintRange(h[i]);
      if r == None {
        lo[i], hi[i] := i + 1, i + 1;
      } else {
        lo[i], hi[i] := r.value.0, r.value.1;
      }
    }
    for i := 0 to 4
      invariant forall m, n :: 0 <= m < i && m < n < 4 ==> !Overlap(Header(h, m), Header(h, n))
    {
      for j := i + 1 to 4
        invariant forall n :: i < n < j ==> !Overlap(Header(h, i), Header(h, n))
      {
        if lo[i] <= hi[j] && lo[j] <= hi[i] {
          assert Overlap(Header(h, i), Header(h, j));
          return false;
        }
      }
    }
    return true;
  }

  predicate Answers(h: seq<string>, n: nat, v: int)
    requires n < |h|
  {
    Header(h, n).0 <= v <= Header(h, n).1
  }

  /** Of ranges that are not empty, no two overlap exactly when every header value identifies at
      most one message type. */
  lemma NoOverlapMeans(h: seq<string>)
    requires forall n :: 0 <= n < |h| ==> Header(h, n).0 <= Header(h, n).1
    ensures NoOverlap(h) <==>
      (forall v, i, j :: 0 <= i < |h| && 0 <= j < |h| && Answers(h, i, v) && Answers(h, j, v) ==> i == j)
  {
    if !NoOverlap(h) {
      var i, j :| 0 <= i < j < |h| && Overlap(Header(h, i), Header(h, j));
      var v := if Header(h, i).0 < Header(h, j).0 then Header(h, j).0 else Header(h, i).0;
      assert Answers(h, i, v) && Answers(h, j, v);
    }
  }

  // ----- the validators

  /** The numbers amneziawg-go reads as uint32 or uint16, with their limits. */
  function Widths(o: Obfuscation): seq<(int, int)> {
    [(o.jc, MAX_UINT32), (o.jmin, MAX_UINT32), (o.jmax, MAX_UINT32),
     (o.s1, MAX_UINT16), (o.s2, MAX_UINT16), (o.s3, MAX_UINT16)]
  }

  function Timings(o: Obfuscation): seq<string> {
    [o.rekeyAfterTime, o.rekeyTimeout, o.rejectAfterTime, o.keepaliveTimeout, o.maxHandshakeAttempts]
  }

  /** The latest rekey: WireGuard's own when the field is empty, 0 when it only looks empty. */
  function RekeyHigh(v: string): int {
    if v == "" then 120 else match ParseUintRange(v)
      case Some(r) => r.1
      case None => 0
  }

  /** The earliest reject, likewise. */
  function RejectLow(v: string): int {
    if v == "" then 180 else match ParseUintRange(v)
      case Some(r) => r.0
      case None => 0
  }

  predicate WidthsOk(o: Obfuscation) {
    && 0 <= o.jmin <= o.jmax <= MAX_UINT32 && 0 <= o.jc <= MAX_UINT32
    && 0 <= o.s1 <= 65535 && 0 <= o.s2 <= 65535 && 0 <= o.s3 <= 65535
    && 0 <= o.s4 <= 32 && o.s1 + 56 != o.s2
  }

  ghost predicate HeadersOk(o: Obfuscation) {
    (forall k :: 0 <= k < |o.h| ==> RangeOk(o.h[k], 0)) && NoOverlap(o.h)
  }

  /** Header protection: a real key, and padding enough on every message. */
  predicate ProtectionOk(o: Obfuscation, goodKey: string -> bool) {
    o.headerProtectionKey == "" ||
    (goodKey(o.headerProtectionKey) && o.s1 >= 12 && o.s2 >= 12 && o.s3 >= 12 && o.s4 >= 12)
  }

  predicate TimingOk(o: Obfuscation) {
    && RangeOk(o.rekeyAfterTime, 1) && RangeOk(o.rekeyTimeout, 1) && RangeOk(o.rejectAfterTime, 1)
    && RangeOk(o.keepaliveTimeout, 1) && RangeOk(o.maxHandshakeAttempts, 1)
    && RekeyHigh(o.rekeyAfterTime) < RejectLow(o.rejectAfterTime)
  }

  /** What ValidateObfuscation lets through. */
  ghost predicate Accepted(o: Obfuscation, goodKey: string -> bool) {
    && WidthsOk(o)
    && (forall k :: 0 <= k < |o.i| ==> ChainOk(o.i[k]))
    && HeadersOk(o)
    && ProtectionOk(o, goodKey)
    && RangeOk(o.contentPaddingAddition, 0)
    && TimingOk(o)
  }

  /** `goodKey` tells whether a key is base64 of 32 bytes without control characters. */
  method ValidateObfuscation(o: Obfuscation, goodKey: string -> bool) returns (ok: bool)
    requires |o.h| == 4 && |o.i| == 5
    ensures ok <==> Accepted(o, goodKey)
  {
    hide RangeOk, ChainOk, NoOverlap, ParseUintRange;
    if o.jmin > o.jmax {
      return false;
    }
    var widths := Widths(o);
    for k := 0 to |widths|
      invariant forall m :: 0 <= m < k ==> 0 <= widths[m].0 <= widths[m].1
    {
      if widths[k].0 < 0 || widths[k].0 > widths[k].1 {
        return false;
      }
    }
    assert 0 <= widths[0].0 && 0 <= widths[1].0 && 0 <= widths[2].0 && 0 <= widths[3].0 && 0 <= widths[4].0 && 0 <= widths[5].0;
    for k := 0 to 5
      invariant forall m :: 0 <= m < k ==> ChainOk(o.i[m])
    {
      var fine := ValidateObfChain(o.i[k]);
      if !fine {
        return false;
      }
    }
    if o.s4 < 0 || o.s4 > 32 {
      return false;
    }
    if o.s1 + 56 == o.s2 {
      return false;
    }
    for k := 0 to 4
      invariant forall m :: 0 <= m < k ==> RangeOk(o.h[m], 0)
    {
      if !RangeOk(o.h[k], 0) {
        return false;
      }
    }
    var apart := ValidateHNoOverlap(o.h);
    if !apart {
      return false;
    }
    if o.headerProtectionKey != "" && !goodKey(o.headerProtectionKey) {
      return false;
    }
    if o.headerProtectionKey != "" {
      if o.s1 < 12 || o.s2 < 12 || o.s3 < 12 || o.s4 < 12 {
        return false;
      }
    }
    if !RangeOk(o.contentPaddingAddition, 0) {
      return false;
    }
    ok := ValidateTimings(o);
  }

  method ValidateTimings(o: Obfuscation) returns (ok: bool)
    ensures ok <==> TimingOk(o)
  {
    hide RangeOk, ParseUintRange;
    var timing := Timings(o);
    for k := 0 to |timing|
      invariant forall m :: 0 <= m < k ==> RangeOk(timing[m], 1)
    {
      if !RangeOk(timing[k], 1) {
        assert !TimingOk(o);
        return false;
      }
    }
    assert RangeOk(timing[0], 1) && RangeOk(timing[1], 1) && RangeOk(timing[2], 1) && RangeOk(timing[3], 1) && RangeOk(timing[4], 1);
    if o.rekeyAfterTime != "" || o.rejectAfterTime != "" {
      var rekeyHi, rejectLo := 120, 180;
      if o.rekeyAfterTime != "" {
        var r := ParseUintRange(o.rekeyAfterTime);
        rekeyHi := if r == None then 0 else r.value.1;
      }
      if o.rejectAfterTime != "" {
        var r := ParseUintRange(o.rejectAfterTime);
        rejectLo := if r == None then 0 else r.value.0;
      }
      if rekeyHi >= rejectLo {
        return false;
      }
    }
    return true;
  }

  /** The largest padded handshake messages every client can receive. */
  const MAX_SERVER_S1: int := 1700 - 148
  const MAX_SERVER_S2: int := 1700 - 92
  const MAX_SERVER_S3: int := 1700 - 64

  method ValidateServerObfuscation(o: Obfuscation, goodKey: string -> bool) returns (ok: bool)
    requires |o.h| == 4 && |o.i| == 5
    ensures ok <==> Accepted(o, goodKey) && 148 + o.s1 <= 1700 && 92 + o.s2 <= 1700 && 64 + o.s3 <= 1700
  {
    hide Accepted;
    ok := ValidateObfuscation(o, goodKey);
    if ok {
      ok := o.s1 <= MAX_SERVER_S1 && o.s2 <= MAX_SERVER_S2 && o.s3 <= MAX_SERVER_S3;
    }
  }

  /** The rekey times a field allows: WireGuard's own 120 seconds when it is blank. */
  ghost function RekeyWindow(v: string): (int, int) {
    match ParseUintRange(v)
    case Some(r) => r
    case None => (120, 120)
  }

  /** The reject times, 180 seconds when blank. */
  ghost function RejectWindow(v: string): (int, int) {
    match ParseUintRange(v)
    case Some(r) => r
    case None => (180, 180)
  }

  ghost predicate InRange(t: int, window: (int, int)) {
    window.0 <= t <= window.1
  }

  /** Sessions renew before they expire: any rekey time comes before any reject time. */
  ghost predicate RenewsInTime(o: Obfuscation) {
    forall a, b :: InRange(a, RekeyWindow(o.rekeyAfterTime)) && InRange(b, RejectWindow(o.rejectAfterTime)) ==> a < b
  }

  /** An accepted set renews in time unless its rekey field is made of blanks: that counts as 0
      instead of as 120 seconds, so a reject window from 120 seconds down gets through. */
  lemma RenewsInTimeIff(o: Obfuscation, goodKey: string -> bool)
    requires Accepted(o, goodKey)
    ensures 1 <= RekeyWindow(o.rekeyAfterTime).0 && 1 <= RejectWindow(o.rejectAfterTime).0
    ensures RenewsInTime(o) <==>
      !(TrimSpace(o.rekeyAfterTime) == "" && o.rekeyAfterTime != "" && RejectWindow(o.rejectAfterTime).0 <= 120)
  {
    hide ChainOk, NoOverlap, ParseUintRange, TrimSpace, Accepted;
    AcceptedWindows(o, goodKey);
    var a, b := RekeyWindow(o.rekeyAfterTime), RejectWindow(o.rejectAfterTime);
    assert InRange(a.1, a) && InRange(b.0, b);
  }

  /** Both windows of an accepted set are proper, and the code's two bounds are theirs, except
      for a rekey field of blanks. */
  lemma AcceptedWindows(o: Obfuscation, goodKey: string -> bool)
    requires Accepted(o, goodKey)
    ensures var a, b := RekeyWindow(o.rekeyAfterTime), RejectWindow(o.rejectAfterTime);
      && 1 <= a.0 <= a.1 && 1 <= b.0 <= b.1
      && (if TrimSpace(o.rekeyAfterTime) == "" then a == (120, 120) else a.1 < b.0)
      && (o.rekeyAfterTime == "" ==> 120 < b.0)
  {
    hide ChainOk, NoOverlap, TrimSpace, ParseUintRange;
    EmptyTrim();
    BlankParse(o.rekeyAfterTime);
    BlankParse(o.rejectAfterTime);
    if TrimSpace(o.rejectAfterTime) == "" && o.rejectAfterTime != "" {
      BlankRejectRefused(o, goodKey);
    }
  }

  lemma BlankParse(v: string)
    ensures TrimSpace(v) == "" ==> ParseUintRange(v) == None
  {
  }

  /** Such a set: from any accepted one, by giving a rekey field of one blank and an early reject. */
  lemma BlankRekeySlipsThrough(o: Obfuscation, goodKey: string -> bool)
    requires Accepted(o, goodKey)
    ensures var p := o.(rekeyAfterTime := " ", rejectAfterTime := "100-110");
      Accepted(p, goodKey) && !RenewsInTime(p)
  {
    hide ChainOk, NoOverlap, ParseUintRange, TrimSpace, RangeOk;
    var p := o.(rekeyAfterTime := " ", rejectAfterTime := "100-110");
    OneBlank();
    EarlyReject();
    assert InRange(120, RekeyWindow(p.rekeyAfterTime)) && InRange(100, RejectWindow(p.rejectAfterTime));
  }

  lemma OneBlank()
    ensures TrimSpace(" ") == "" && RangeOk(" ", 1) && ParseUintRange(" ") == None
  {
  }

  lemma EarlyReject()
    ensures ParseUintRange("100-110") == Some((100, 110)) && RangeOk("100-110", 1)
  {
    hide TrimSpace, ParseUintRange;
    assert NatToString(10) == "10" by { assert NatToString(1) == "1"; }
    assert NatToString(11) == "11" by { assert NatToString(1) == "1"; }
    assert NatToString(100) == "100" && NatToString(110) == "110";
    assert PrintRange(100, 110) == "100-110";
    ParsePrintRange(100, 110);
  }

  /** Accepted headers give each header value at most one message type. */
  lemma HeadersIdentify(o: Obfuscation, goodKey: string -> bool, v: int, i: nat, j: nat)
    requires Accepted(o, goodKey) && i < |o.h| && j < |o.h|
    requires Answers(o.h, i, v) && Answers(o.h, j, v)
    ensures i == j
  {
    hide ParseUintRange, TrimSpace, ChainOk;
    forall n | 0 <= n < |o.h| ensures Header(o.h, n).0 <= Header(o.h, n).1 {
      HeaderOrdered(o.h, n);
    }
    NoOverlapMeans(o.h);
  }

  lemma HeaderOrdered(h: seq<string>, n: nat)
    requires n < |h| && RangeOk(h[n], 0)
    ensures Header(h, n).0 <= Header(h, n).1
  {
    hide TrimSpace;
    if TrimSpace(h[n]) == "" {
      assert ParseUintRange(h[n]) == None;
    }
  }

  /** A reject window of blanks only, though each field check lets it through, is never accepted:
      it counts as 0 instead of as WireGuard's own 180 seconds. */
  lemma BlankRejectRefused(o: Obfuscation, goodKey: string -> bool)
    requires TrimSpace(o.rejectAfterTime) == "" && o.rejectAfterTime != ""
    ensures RangeOk(o.rejectAfterTime, 1) && !Accepted(o, goodKey)
  {
    hide ChainOk, NoOverlap;
    if RangeOk(o.rekeyAfterTime, 1) {
      RekeyHighNonNegative(o.rekeyAfterTime);
    }
  }

  lemma RekeyHighNonNegative(v: string)
    requires RangeOk(v, 1)
    ensures RekeyHigh(v) >= 0
  {
    hide TrimSpace;
    if TrimSpace(v) == "" {
      assert ParseUintRange(v) == None;
    }
  }

  // ----- the generator

  /** crypto/rand between bounds, any of which may come out; `min` when there is no room. */
  method RandInt(min: int, max: int) returns (n: int)
    ensures if max <= min then n == min else min <= n <= max
  {
    if max <= min {
      return min;
    }
    n :| min <= n <= max;
  }

  const BAND_SIZE: int := (H_MAX - 5 + 1) / 4

  /** H(n+1) is one number out of the n-th quarter of [5, 2^31 - 1]. */
  ghost predicate InBand(text: string, n: nat) {
    exists v: nat :: text == NatToString(v) && 5 + n * BAND_SIZE <= v < 5 + (n + 1) * BAND_SIZE
  }

  method GenerateHValues() returns (h: seq<string>)
    ensures |h| == 4 && forall n :: 0 <= n < 4 ==> InBand(h[n], n)
  {
    hide NatToString;
    var out := new string[4];
    for i := 0 to 4
      invariant forall n :: 0 <= n < i ==> InBand(out[n], n)
    {
      var bandLo := 5 + i * BAND_SIZE;
      var bandHi := bandLo + BAND_SIZE - 1;
      var v := RandInt(bandLo, bandHi);
      out[i] := NatToString(v);
    }
    h := out[..];
  }

  /** A printed window: where its low end lies and how much higher its high end is. */
  ghost predicate Window(text: string, lowMin: int, lowMax: int, spanMin: int, spanMax: int) {
    exists lo: nat, hi: nat :: text == PrintRange(lo, hi) && lowMin <= lo <= lowMax && spanMin <= hi - lo <= spanMax
  }

  ghost predicate BracketBy(rekey: string, reject: string, a: nat, b: nat, c: nat, d: nat) {
    rekey == PrintRange(a, b) && reject == PrintRange(c, d) &&
    100 <= a <= 120 && 10 <= b - a <= 40 && 30 <= c - b <= 60 && 30 <= d - c <= 90
  }

  /** The reject window starts 30 to 60 seconds after the rekey window ends. */
  ghost predicate Bracket(rekey: string, reject: string) {
    exists a: nat, b: nat, c: nat, d: nat :: BracketBy(rekey, reject, a, b, c, d)
  }

  ghost predicate RandomTag(text: string) {
    exists n: nat :: text == "<r " + NatToString(n) + ">" && 32 <= n <= 256
  }

  /** Every parameter set the generator can produce. */
  ghost predicate Generated(o: Obfuscation) {
    && 3 <= o.jc <= 6 && 40 <= o.jmin <= 89 && 50 <= o.jmax - o.jmin <= 250
    && 15 <= o.s1 <= 150 && 15 <= o.s2 <= 150 && o.s1 + 56 != o.s2 && 12 <= o.s3 <= 55 && 12 <= o.s4 <= 27
    && |o.h| == 4 && (forall n :: 0 <= n < 4 ==> InBand(o.h[n], n))
    && |o.i| == 5 && RandomTag(o.i[0]) && o.i[1..] == ["", "", "", ""]
    && Window(o.contentPaddingAddition, 8, 24, 8, 40)
    && Bracket(o.rekeyAfterTime, o.rejectAfterTime)
    && Window(o.rekeyTimeout, 3, 6, 1, 4) && Window(o.keepaliveTimeout, 8, 12, 2, 8)
    && Window(o.maxHandshakeAttempts, 15, 25, 5, 25)
    && o.randomTrailers && o.disableCookies
  }

  method RandomWindow(lowMin: nat, lowMax: nat, spanMin: nat, spanMax: nat) returns (text: string, lo: nat, hi: nat)
    requires lowMin < lowMax && spanMin < spanMax
    ensures text == PrintRange(lo, hi) && lowMin <= lo <= lowMax && spanMin <= hi - lo <= spanMax
  {
    lo := RandInt(lowMin, lowMax);
    var span := RandInt(spanMin, spanMax);
    hi := lo + span;
    text := PrintRange(lo, hi);
  }

  /** `key` is what generateHeaderProtectionKey returned. The redraw of S2 has no bound in the
      source; here it gives up (None) after `redraws` unlucky draws. */
  method GenerateObfuscation31(key: string, redraws: nat) returns (r: Option<Obfuscation>)
    ensures r.Some? ==> Generated(r.value) && r.value.headerProtectionKey == key
  {
    hide PrintRange, NatToString;
    var jc := RandInt(3, 6);
    var jmin := RandInt(40, 89);
    var extra := RandInt(50, 250);
    var s1 := RandInt(15, 150);
    var s2 := RandInt(15, 150);
    var left := redraws;
    while s1 + 56 == s2
      invariant 15 <= s2 <= 150
      decreases left
    {
      if left == 0 {
        return None;
      }
      s2 := RandInt(15, 150);
      left := left - 1;
    }
    var s3 := RandInt(12, 55);
    var s4 := RandInt(12, 27);
    var h := GenerateHValues();
    var n := RandInt(32, 256);
    var i1 := "<r " + NatToString(n) + ">";
    var padding, _, _ := RandomWindow(8, 24, 8, 40);
    var rekey, rkLo, rkHi := RandomWindow(100, 120, 10, 40);
    var gap := RandInt(30, 60);
    var rjLo := rkHi + gap;
    var rjSpan := RandInt(30, 90);
    var reject := PrintRange(rjLo, rjLo + rjSpan);
    var timeout, _, _ := RandomWindow(3, 6, 1, 4);
    var keepalive, _, _ := RandomWindow(8, 12, 2, 8);
    var attempts, _, _ := RandomWindow(15, 25, 5, 25);
    assert BracketBy(rekey, reject, rkLo, rkHi, rjLo, rjLo + rjSpan);
    assert RandomTag(i1);
    r := Some(Obfuscation(jc, jmin, jmin + extra, s1, s2, s3, s4, h, [i1, "", "", "", ""], key, padding,
                          rekey, timeout, reject, keepalive, attempts, true, true));
  }

  // ----- the generator meets the validator

  lemma WindowOk(text: string, lowMin: int, lowMax: int, spanMin: int, spanMax: int, minAllowed: int)
    requires Window(text, lowMin, lowMax, spanMin, spanMax)
    requires minAllowed <= lowMin && 0 <= spanMin && lowMax + spanMax <= MAX_UINT32
    ensures RangeOk(text, minAllowed) && ParseUintRange(text).Some?
    ensures lowMin <= ParseUintRange(text).value.0 <= ParseUintRange(text).value.1 <= lowMax + spanMax
  {
    hide TrimSpace, PrintRange;
    var lo: nat, hi: nat :| text == PrintRange(lo, hi) && lowMin <= lo <= lowMax && spanMin <= hi - lo <= spanMax;
    ParsePrintRange(lo, hi);
  }

  /** The generated rekey and reject windows, read back: at least 30 seconds between them. */
  lemma RekeyMargin(o: Obfuscation)
    requires Generated(o)
    ensures RangeOk(o.rekeyAfterTime, 1) && RangeOk(o.rejectAfterTime, 1)
    ensures ParseUintRange(o.rekeyAfterTime).Some? && ParseUintRange(o.rejectAfterTime).Some?
    ensures ParseUintRange(o.rekeyAfterTime).value.1 + 30 <= ParseUintRange(o.rejectAfterTime).value.0
    ensures RekeyHigh(o.rekeyAfterTime) < RejectLow(o.rejectAfterTime)
  {
    hide Bracket, Window, InBand, RandomTag, RangeOk, RekeyHigh, RejectLow;
    BracketMargin(o.rekeyAfterTime, o.rejectAfterTime);
  }

  lemma BracketMargin(rekey: string, reject: string)
    requires Bracket(rekey, reject)
    ensures RangeOk(rekey, 1) && RangeOk(reject, 1)
    ensures ParseUintRange(rekey).Some? && ParseUintRange(reject).Some?
    ensures ParseUintRange(rekey).value.1 + 30 <= ParseUintRange(reject).value.0
    ensures RekeyHigh(rekey) < RejectLow(reject)
  {
    hide ParseUintRange, PrintRange, RangeOk, RekeyHigh, RejectLow, NoControl;
    var a: nat, b: nat, c: nat, d: nat :| BracketBy(rekey, reject, a, b, c, d);
    ParsePrintRange(a, b);
    ParsePrintRange(c, d);
    RangeOkFrom(rekey, a, b, 1);
    RangeOkFrom(reject, c, d, 1);
  }

  lemma RangeOkFrom(text: string, lo: int, hi: int, minAllowed: int)
    requires text != "" && NoControl(text) && ParseUintRange(text) == Some((lo, hi)) && minAllowed <= lo <= hi <= MAX_UINT32
    ensures RangeOk(text, minAllowed) && RekeyHigh(text) == hi && RejectLow(text) == lo
  {
  }

  lemma EmptyTrim()
    ensures TrimSpace("") == "" && ParseUintRange("") == None
  {
  }

  /** The generated headers: each a single value in its own quarter of [5, 2^31 - 1]. */
  lemma HeaderBands(o: Obfuscation, n: nat)
    requires Generated(o) && n < 4
    ensures RangeOk(o.h[n], 0) && Header(o.h, n).0 == Header(o.h, n).1
    ensures 5 + n * 536870910 <= Header(o.h, n).0 < 5 + (n + 1) * 536870910 <= 2147483648
  {
    hide TrimSpace, NatToString, Window, Bracket;
    assert InBand(o.h[n], n);
    var v: nat :| o.h[n] == NatToString(v) && 5 + n * BAND_SIZE <= v < 5 + (n + 1) * BAND_SIZE;
    assert (n + 1) * BAND_SIZE <= 4 * BAND_SIZE;
    ParseNumber(v);
    NumberFacts(v);
  }

  /** Total content padding stays within 64 bytes. */
  lemma PaddingBounded(o: Obfuscation)
    requires Generated(o)
    ensures ParseUintRange(o.contentPaddingAddition).Some? && ParseUintRange(o.contentPaddingAddition).value.1 <= 64
  {
    hide ParseUintRange, PrintRange;
    WindowOk(o.contentPaddingAddition, 8, 24, 8, 40, 0);
  }

  /** Whatever is drawn, the server-side validator accepts the generated set. */
  lemma GeneratedAccepted(o: Obfuscation, goodKey: string -> bool)
    requires Generated(o) && (o.headerProtectionKey == "" || goodKey(o.headerProtectionKey))
    ensures Accepted(o, goodKey) && 148 + o.s1 <= 1700 && 92 + o.s2 <= 1700 && 64 + o.s3 <= 1700
  {
    hide RangeOk, ChainOk, ParseUintRange, Window, Bracket, InBand, RandomTag, TrimSpace;
    WindowOk(o.contentPaddingAddition, 8, 24, 8, 40, 0);
    WindowOk(o.rekeyTimeout, 3, 6, 1, 4, 1);
    WindowOk(o.keepaliveTimeout, 8, 12, 2, 8, 1);
    WindowOk(o.maxHandshakeAttempts, 15, 25, 5, 25, 1);
    RekeyMargin(o);
    ChainsOk(o);
    forall n: nat | n < 4
      ensures RangeOk(o.h[n], 0) && 5 + n * BAND_SIZE <= Header(o.h, n).0 == Header(o.h, n).1 < 5 + (n + 1) * BAND_SIZE
    {
      HeaderBands(o, n);
    }
    forall i, j | 0 <= i < j < 4 ensures !Overlap(Header(o.h, i), Header(o.h, j)) {
      assert (i + 1) * BAND_SIZE <= j * BAND_SIZE;
    }
  }

  lemma ChainsOk(o: Obfuscation)
    requires Generated(o)
    ensures forall k :: 0 <= k < 5 ==> ChainOk(o.i[k])
  {
    hide Window, Bracket, InBand, NatToString, ChainFrom;
    assert RandomTag(o.i[0]);
    var n: nat :| o.i[0] == "<r " + NatToString(n) + ">" && 32 <= n <= 256;
    RandomChainOk(n);
    forall k | 1 <= k < 5 ensures ChainOk(o.i[k]) {
      assert o.i[k] == o.i[1..][k - 1];
      EmptyTrim();
    }
  }
}
