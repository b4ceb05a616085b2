/** The string primitives the modelled code takes from Go's `strings` and `strconv`. */
module Text {

  datatype Option<+T> = None | Some(value: T)

  /** unicode.IsSpace, the set strings.TrimSpace strips. */
  predicate IsSpace(c: char) {
    c in {'\t', '\n', '\U{0B}', '\U{0C}', '\r', ' ', '\U{85}', '\U{A0}', '\U{1680}', '\U{2028}', '\U{2029}', '\U{202F}', '\U{205F}', '\U{3000}'}
    || '\U{2000}' <= c <= '\U{200A}'
  }

  /** The code points with the Unicode property White_Space. */
  lemma SpaceIs(c: char)
    ensures IsSpace(c) <==>
      || 9 <= c as int <= 13 || c as int in {32, 0x85, 0xA0, 0x1680, 0x2028, 0x2029, 0x202F, 0x205F, 0x3000}
      || 0x2000 <= c as int <= 0x200A
  {
  }

  function TrimLeft(s: string): string {
    if s != [] && IsSpace(s[0]) then TrimLeft(s[1..]) else s
  }

  function TrimRight(s: string): string {
    if s != [] && IsSpace(s[|s| - 1]) then TrimRight(s[..|s| - 1]) else s
  }

  function TrimSpace(s: string): string {
    TrimRight(TrimLeft(s))
  }

  /** ASCII lower case; see the README for what this leaves out. */
  function LowerChar(c: char): char {
    if 'A' <= c <= 'Z' then (c as int + 32) as char else c
  }

  function ToLower(s: string): (r: string)
    ensures |r| == |s|
  {
    seq(|s|, i requires 0 <= i < |s| => LowerChar(s[i]))
  }

  /** Letters A to Z become a to z, everything else stays. */
  lemma LowerIs(s: string, i: nat)
    requires i < |s|
    ensures ToLower(s)[i] as int == s[i] as int + if 65 <= s[i] as int <= 90 then 32 else 0
  {
  }

  /** What is left has no space at its ends, and nothing but space is gone. */
  lemma {:induction false} TrimSpec(s: string)
    ensures exists a, b :: s == a + TrimSpace(s) + b && (forall c :: c in a + b ==> IsSpace(c))
    ensures TrimSpace(s) != "" ==> !IsSpace(TrimSpace(s)[0]) && !IsSpace(TrimSpace(s)[|TrimSpace(s)| - 1])
  {
    hide IsSpace;
    var a := TrimLeftSpec(s);
    var t := TrimLeft(s);
    var b := TrimRightSpec(t);
    assert s == a + TrimSpace(s) + b;
  }

  lemma {:induction false} TrimLeftSpec(s: string) returns (a: string)
    ensures s == a + TrimLeft(s) && (forall c :: c in a ==> IsSpace(c)) && (TrimLeft(s) != "" ==> !IsSpace(TrimLeft(s)[0]))
    decreases |s|
  {
    hide IsSpace;
    a := "";
    if s != [] && IsSpace(s[0]) {
      var rest := TrimLeftSpec(s[1..]);
      a := [s[0]] + rest;
      assert s == [s[0]] + s[1..];
    }
  }

  lemma {:induction false} TrimRightSpec(s: string) returns (b: string)
    ensures s == TrimRight(s) + b && (forall c :: c in b ==> IsSpace(c))
    ensures TrimRight(s) != "" ==> TrimRight(s)[0] == s[0] && !IsSpace(TrimRight(s)[|TrimRight(s)| - 1])
    decreases |s|
  {
    hide IsSpace;
    b := "";
    if s != [] && IsSpace(s[|s| - 1]) {
      var front := TrimRightSpec(s[..|s| - 1]);
      b := front + [s[|s| - 1]];
      assert s == s[..|s| - 1] + [s[|s| - 1]];
    }
  }

  predicate HasPrefix(s: string, prefix: string) {
    prefix <= s
  }

  function TrimPrefix(s: string, prefix: string): string {
    if prefix <= s then s[|prefix|..] else s
  }

  /** The first position of `c` from `k` on, with the length of `s` for "absent". */
  function IndexFrom<T(==)>(s: seq<T>, c: T, k: nat): (i: nat)
    requires k <= |s|
    ensures k <= i <= |s|
    ensures i < |s| ==> s[i] == c
    ensures forall j :: k <= j < i ==> s[j] != c
    decreases |s| - k
  {
    if k == |s| || s[k] == c then k else IndexFrom(s, c, k + 1)
  }

  /** strings.IndexByte, with the length of `s` for "absent". */
  function Index(s: string, c: char): (i: nat)
    ensures i <= |s|
    ensures i < |s| ==> s[i] == c
    ensures forall j :: 0 <= j < i ==> s[j] != c
  {
    IndexFrom(s, c, 0)
  }

  lemma IndexFirst(a: string, c: char, b: string)
    requires c !in a
    ensures Index(a + [c] + b, c) == |a|
  {
    var s := a + [c] + b;
    assert s[|a|] == c;
    assert forall k :: 0 <= k < |a| ==> s[k] == a[k];
  }

  /** strings.Split for a one-character separator: never empty. */
  function Split(s: string, sep: char): (parts: seq<string>)
    ensures |parts| >= 1
    decreases |s|
  {
    var i := Index(s, sep);
    if i == |s| then [s] else [s[..i]] + Split(s[i + 1..], sep)
  }

  function Join(parts: seq<string>, sep: string): string {
    if |parts| == 0 then "" else if |parts| == 1 then parts[0] else parts[0] + sep + Join(parts[1..], sep)
  }

  lemma JoinThree(a: string, b: string, c: string, sep: string)
    ensures Join([a, b, c], sep) == a + sep + b + sep + c
  {
    assert [a, b, c][1..] == [b, c] && [b, c][1..] == [c];
    assert Join([c], sep) == c;
    assert Join([b, c], sep) == b + sep + c;
    assert a + sep + (b + sep + c) == a + sep + b + sep + c;
  }

  lemma SplitStep(a: string, sep: char, rest: string)
    requires sep !in a
    ensures Split(a + [sep] + rest, sep) == [a] + Split(rest, sep)
  {
    var s := a + [sep] + rest;
    IndexFirst(a, sep, rest);
    assert s[..|a|] == a && s[|a| + 1..] == rest;
  }

  lemma {:induction false} SplitJoin(parts: seq<string>, sep: char)
    requires |parts| >= 1
    requires forall p :: p in parts ==> sep !in p
    ensures Split(Join(parts, [sep]), sep) == parts
    decreases |parts|
  {
    var head, tail := parts[0], parts[1..];
    assert head in parts;
    assert parts == [head] + tail;
    if |parts| > 1 {
      assert forall p :: p in tail ==> p in parts;
      SplitJoin(tail, sep);
      SplitStep(head, sep, Join(tail, [sep]));
    }
  }

  lemma {:induction false} JoinSplit(s: string, sep: char)
    ensures Join(Split(s, sep), [sep]) == s
    ensures forall p :: p in Split(s, sep) ==> sep !in p
    decreases |s|
  {
    var i := Index(s, sep);
    if i < |s| {
      JoinSplit(s[i + 1..], sep);
      var rest := Split(s[i + 1..], sep);
      assert ([s[..i]] + rest)[1..] == rest;
      assert s == s[..i] + [sep] + s[i + 1..];
    }
  }

  // ----- numbers

  predicate IsDigit(c: char) { '0' <= c <= '9' }

  predicate AllDigits(s: string) { forall i :: 0 <= i < |s| ==> IsDigit(s[i]) }

  function DigitValue(c: char): (v: nat)
    requires IsDigit(c)
    ensures v < 10
  {
    c as int - '0' as int
  }

  function DigitChar(d: nat): (c: char)
    requires d < 10
    ensures IsDigit(c) && DigitValue(c) == d
  {
    (d + '0' as int) as char
  }

  /** The number a digit string denotes. */
  function NatValue(s: string): nat
    requires AllDigits(s)
  {
    if s == "" then 0 else NatValue(s[..|s| - 1]) * 10 + DigitValue(s[|s| - 1])
  }

  /** No leading zero, except for "0" itself. */
  predicate Canonical(s: string) {
    s != "" && AllDigits(s) && (s[0] == '0' ==> s == "0")
  }

  /** strconv.Itoa on a non-negative number. */
  function NatToString(n: nat): (s: string)
    ensures Canonical(s)
    ensures NatValue(s) == n
  {
    if n < 10 then
      assert NatValue("") == 0;
      assert [DigitChar(n)][..0] == "";
      [DigitChar(n)]
    else
      var front := NatToString(n / 10);
      var s := front + [DigitChar(n % 10)];
      assert s[..|s| - 1] == front;
      assert front != "0" by { assert NatValue("0") == 0 by { assert "0"[..0] == ""; } }
      s
  }

  function IntToString(n: int): string {
    if n < 0 then "-" + NatToString(-n) else NatToString(n)
  }

  function Pow10(k: nat): nat {
    if k == 0 then 1 else 10 * Pow10(k - 1)
  }

  /** A digit string of length k denotes a number below 10^k, and at least
      10^(k-1) when it has no leading zero. */
  lemma {:induction false} NatValueBounds(s: string)
    requires AllDigits(s)
    ensures NatValue(s) < Pow10(|s|)
    ensures s != "" && s[0] != '0' ==> NatValue(s) >= Pow10(|s| - 1)
    decreases |s|
  {
    if s != "" {
      var front := s[..|s| - 1];
      NatValueBounds(front);
      if |s| == 1 {
        assert front == "";
      } else {
        assert front[0] == s[0];
      }
    }
  }

  lemma {:induction false} Pow10Monotone(a: nat, b: nat)
    requires a <= b
    ensures Pow10(a) <= Pow10(b)
    decreases b
  {
    if a < b {
      Pow10Monotone(a, b - 1);
    }
  }

  /** Canonical digit strings denote distinct numbers. */
  lemma {:induction false} CanonicalInjective(a: string, b: string)
    requires Canonical(a) && Canonical(b)
    requires NatValue(a) == NatValue(b)
    ensures a == b
  {
    NatValueBounds(a);
    NatValueBounds(b);
    assert NatValue("0") == 0 by { assert "0"[..0] == ""; }
    if a == "0" || b == "0" {
      assert Pow10(|a| - 1) >= Pow10(0) by { Pow10Monotone(0, |a| - 1); }
      assert Pow10(|b| - 1) >= Pow10(0) by { Pow10Monotone(0, |b| - 1); }
    } else {
      if |a| < |b| { Pow10Monotone(|a|, |b| - 1); }
      if |b| < |a| { Pow10Monotone(|b|, |a| - 1); }
      SameLengthInjective(a, b);
    }
  }

  lemma {:induction false} SameLengthInjective(a: string, b: string)
    requires AllDigits(a) && AllDigits(b) && |a| == |b|
    requires NatValue(a) == NatValue(b)
    ensures a == b
    decreases |a|
  {
    if a != "" {
      SameLengthInjective(a[..|a| - 1], b[..|b| - 1]);
      assert a == a[..|a| - 1] + [a[|a| - 1]];
      assert b == b[..|b| - 1] + [b[|b| - 1]];
    }
  }

  lemma {:induction false} NatToStringInverse(s: string)
    requires Canonical(s)
    ensures NatToString(NatValue(s)) == s
  {
    CanonicalInjective(NatToString(NatValue(s)), s);
  }

  const MAX_INT64: int := 0x7FFF_FFFF_FFFF_FFFF

  /** strconv.Atoi / ParseInt(s, 10, 64): an optional sign, digits, 64-bit range. */
  function ParseInt(s: string): (r: Option<int>) {
    var digits := if s != "" && (s[0] == '+' || s[0] == '-') then s[1..] else s;
    if digits == "" || !AllDigits(digits) then None else
      var n: int := NatValue(digits);
      var v := if s[0] == '-' then -n else n;
      if -MAX_INT64 - 1 <= v <= MAX_INT64 then Some(v) else None
  }

  /** Decimal digits behind at most one sign, in the range of 64 bits. */
  lemma ParseIntIff(s: string, n: int)
    ensures ParseInt(s) == Some(n) <==>
      && -0x8000_0000_0000_0000 <= n <= 0x7FFF_FFFF_FFFF_FFFF
      && exists digits :: digits != "" && AllDigits(digits)
           && ((s in [digits, "+" + digits] && n == NatValue(digits)) || (s == "-" + digits && n == 0 - NatValue(digits)))
  {
    hide NatValue;
    var digits := if s != "" && (s[0] == '+' || s[0] == '-') then s[1..] else s;
    assert s != "" && s[0] == '+' ==> s == "+" + digits;
    assert s != "" && s[0] == '-' ==> s == "-" + digits;
    forall d | d != "" && AllDigits(d) && s in [d, "+" + d, "-" + d] ensures d == digits {
      assert IsDigit(d[0]);
    }
  }

  lemma IntToStringSign(n: int)
    ensures IntToString(n)[0] == '-' <==> n < 0
  {
    assert n >= 0 ==> IsDigit(NatToString(n)[0]);
  }

  lemma {:induction false} ParseIntToString(n: int)
    requires -MAX_INT64 - 1 <= n <= MAX_INT64
    ensures ParseInt(IntToString(n)) == Some(n)
  {
    if n < 0 {
      assert IntToString(n)[1..] == NatToString(-n);
    } else {
      assert NatToString(n)[0] != '-' && NatToString(n)[0] != '+';
    }
  }

  /** A printed number contains only digits and at most a leading minus sign, so
      trimming leaves it alone. */
  lemma {:induction false} TrimClean(s: string)
    requires s == "" || (!IsSpace(s[0]) && !IsSpace(s[|s| - 1]))
    ensures TrimSpace(s) == s
  {
    assert TrimLeft(s) == s;
  }

  // ----- order

  /** Go's `<` on strings, here on code points. */
  predicate Less(a: string, b: string) {
    if b == "" then false
    else if a == "" then true
    else if a[0] != b[0] then a[0] < b[0]
    else Less(a[1..], b[1..])
  }

  lemma {:induction false} LessIrreflexive(a: string)
    ensures !Less(a, a)
    decreases |a|
  {
    if a != "" { LessIrreflexive(a[1..]); }
  }

  lemma {:induction false} LessTransitive(a: string, b: string, c: string)
    requires Less(a, b) && Less(b, c)
    ensures Less(a, c)
    decreases |a|
  {
    if a != "" && a[0] == b[0] && b[0] == c[0] {
      LessTransitive(a[1..], b[1..], c[1..]);
    }
  }

  lemma {:induction false} LessTotal(a: string, b: string)
    requires a != b
    ensures Less(a, b) || Less(b, a)
    decreases |a|
  {
    if a != "" && b != "" && a[0] == b[0] {
      assert a == [a[0]] + a[1..] && b == [b[0]] + b[1..];
      LessTotal(a[1..], b[1..]);
    }
  }

  /** Two-place numbers compare place by place. */
  lemma PlaceOrder(x: nat, y: nat, p: nat, u: nat, v: nat)
    requires u < p && v < p
    ensures x * p + u < y * p + v <==> x < y || (x == y && u < v)
  {
    if x < y {
      assert (x + 1) * p <= y * p;
    } else if y < x {
      assert (y + 1) * p <= x * p;
    }
  }

  /** On digit strings of one length, Go's string order is the numeric order. */
  lemma {:induction false} LessIsNumeric(a: string, b: string)
    requires AllDigits(a) && AllDigits(b) && |a| == |b|
    ensures Less(a, b) <==> NatValue(a) < NatValue(b)
    decreases |a|
  {
    if a != "" {
      LessIsNumeric(a[1..], b[1..]);
      HeadValue(a);
      HeadValue(b);
      NatValueBounds(a[1..]);
      NatValueBounds(b[1..]);
      PlaceOrder(DigitValue(a[0]), DigitValue(b[0]), Pow10(|a| - 1), NatValue(a[1..]), NatValue(b[1..]));
    }
  }

  /** Moving a leading digit one place up, past a last digit. */
  lemma ShiftPlace(d: nat, p: nat, front: nat, last: nat)
    ensures (d * p + front) * 10 + last == d * (10 * p) + (front * 10 + last)
  {
  }

  lemma {:induction false} HeadValue(s: string)
    requires s != "" && AllDigits(s)
    ensures NatValue(s) == DigitValue(s[0]) * Pow10(|s| - 1) + NatValue(s[1..])
    decreases |s|
  {
    if |s| == 1 {
      assert s[..0] == "" && s[1..] == "";
    } else {
      var front := s[..|s| - 1];
      HeadValue(front);
      assert front[1..] == s[1..][..|s| - 2];
      ShiftPlace(DigitValue(s[0]), Pow10(|s| - 2), NatValue(front[1..]), DigitValue(s[|s| - 1]));
    }
  }
}
