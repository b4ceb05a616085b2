/** Release versions: the strict SemVer subset, its order, and the choice of an RC release. */
module Versions {
  import opened Text

  datatype Identifier = Identifier(value: string, numeric: bool)

  datatype Version = Version(major: nat, minor: nat, patch: nat, prerelease: seq<Identifier>)

  // ----- parsing

  /** validNumericComponent */
  predicate NumericComponent(s: string) {
    s != "" && (s == "0" || s[0] != '0') && AllDigits(s)
  }

  predicate IsNumeric(s: string) {
    s != "" && AllDigits(s)
  }

  predicate IdentifierChar(c: char) {
    IsDigit(c) || 'A' <= c <= 'Z' || 'a' <= c <= 'z' || c == '-'
  }

  /** validPrereleaseIdentifier */
  predicate PrereleaseIdentifier(s: string) {
    && !(s == "" || (IsNumeric(s) && |s| > 1 && s[0] == '0'))
    && forall i :: 0 <= i < |s| ==> IdentifierChar(s[i])
  }

  function Component(s: string): Option<nat> {
    if !NumericComponent(s) then None else
      match ParseInt(s)
      case None => None
      case Some(n) => if n < 0 then None else var m: nat := n; Some(m)
  }

  /** The identifiers of the first `n` parts. */
  function Identifiers(parts: seq<string>, n: nat): Option<seq<Identifier>>
    requires n <= |parts|
  {
    if n == 0 then Some([]) else
      match Identifiers(parts, n - 1)
      case None => None
      case Some(ids) =>
        if PrereleaseIdentifier(parts[n - 1]) then Some(ids + [Identifier(parts[n - 1], IsNumeric(parts[n - 1]))]) else None
  }

  /** Three numeric components. */
  function Core(s: string): Option<(nat, nat, nat)> {
    var core := Split(s, '.');
    if |core| != 3 then None else
      var a, b, c := Component(core[0]), Component(core[1]), Component(core[2]);
      if a.Some? && b.Some? && c.Some? then Some((a.value, b.value, c.value)) else None
  }

  /** A version without surrounding space and without the leading v. */
  function Bare(value: string): Option<Version> {
    if value == "" || '+' in value then None else
      var i := Index(value, '-');
      match Core(value[..i])
      case None => None
      case Some((a, b, c)) =>
        if i == |value| then Some(Version(a, b, c, [])) else
          var parts := Split(value[i + 1..], '.');
          if value[i + 1..] == "" then None else
            match Identifiers(parts, |parts|)
            case None => None
            case Some(ids) => Some(Version(a, b, c, ids))
  }

  function Parse(input: string): Option<Version> {
    Bare(TrimPrefix(TrimSpace(input), "v"))
  }

  method ParseVersion(input: string) returns (r: Option<Version>)
    ensures r == Parse(input)
  {
    hide TrimSpace, ParseInt, NumericComponent, PrereleaseIdentifier, Split;
    var value := TrimPrefix(TrimSpace(input), "v");
    if value == "" || '+' in value {
      return None;
    }
    var cut := Index(value, '-');
    var core := Split(value[..cut], '.');
    if |core| != 3 {
      return None;
    }
    var numbers: seq<nat> := [];
    for k := 0 to 3
      invariant |numbers| == k
      invariant forall j :: 0 <= j < k ==> Component(core[j]) == Some(numbers[j])
    {
      var number := Component(core[k]);
      if number.None? {
        return None;
      }
      numbers := numbers + [number.value];
    }
    var version := Version(numbers[0], numbers[1], numbers[2], []);
    if cut == |value| {
      return Some(version);
    }
    if value[cut + 1..] == "" {
      return None;
    }
    var parts := Split(value[cut + 1..], '.');
    for k := 0 to |parts|
      invariant Identifiers(parts, k) == Some(version.prerelease)
      invariant version.(prerelease := []) == Version(numbers[0], numbers[1], numbers[2], [])
    {
      if !PrereleaseIdentifier(parts[k]) {
        IdentifiersStop(parts, k + 1, |parts|);
        return None;
      }
      version := version.(prerelease := version.prerelease + [Identifier(parts[k], IsNumeric(parts[k]))]);
    }
    return Some(version);
  }

  lemma {:induction false} IdentifiersStop(parts: seq<string>, n: nat, m: nat)
    requires n <= m <= |parts| && Identifiers(parts, n).None?
    ensures Identifiers(parts, m).None?
    decreases m
  {
    if n < m { IdentifiersStop(parts, n, m - 1); }
  }

  // ----- what parses

  /** What the parser can return. */
  ghost predicate WellFormed(v: Version) {
    && v.major <= MAX_INT64 && v.minor <= MAX_INT64 && v.patch <= MAX_INT64
    && forall i :: 0 <= i < |v.prerelease| ==>
      PrereleaseIdentifier(v.prerelease[i].value) && v.prerelease[i].numeric == IsNumeric(v.prerelease[i].value)
  }

  /** An identifier of section 9: letters, digits and hyphens, and no number with a leading zero. */
  ghost predicate SemverIdentifier(s: string) {
    s != "" && (forall c :: c in s ==> SemverChar(c))
    && ((forall c :: c in s ==> c in "0123456789") ==> s == "0" || s[0] != '0')
  }

  ghost predicate SemverChar(c: char) {
    c in "0123456789" || c in "ABCDEFGHIJKLMNOPQRSTUVWXYZ" || c in "abcdefghijklmnopqrstuvwxyz" || c == '-'
  }

  lemma Letters(c: char)
    ensures c in "0123456789" <==> IsDigit(c)
    ensures SemverChar(c) <==> IdentifierChar(c)
  {
    var digits := "0123456789";
    var upper, lower := "ABCDEFGHIJKLMNOPQRSTUVWXYZ", "abcdefghijklmnopqrstuvwxyz";
    assert forall i :: 0 <= i < 10 ==> digits[i] as int == 48 + i;
    assert forall i :: 0 <= i < 26 ==> upper[i] as int == 65 + i;
    assert forall i :: 0 <= i < 26 ==> lower[i] as int == 97 + i;
    if IsDigit(c) { assert digits[c as int - 48] == c; }
    if 'A' <= c <= 'Z' { assert upper[c as int - 65] == c; }
    if 'a' <= c <= 'z' { assert lower[c as int - 97] == c; }
  }

  /** What the parser accepts as an identifier, and calls numeric, is what section 9 says. */
  lemma IdentifierIff(s: string)
    ensures PrereleaseIdentifier(s) <==> SemverIdentifier(s)
    ensures IsNumeric(s) <==> s != "" && forall c :: c in s ==> c in "0123456789"
  {
    hide IdentifierChar, IsDigit, SemverChar;
    forall c ensures c in "0123456789" <==> IsDigit(c) {
      Letters(c);
    }
    forall c ensures SemverChar(c) <==> IdentifierChar(c) {
      Letters(c);
    }
    assert forall i :: 0 <= i < |s| ==> s[i] in s;
    assert |s| == 1 && s[0] == '0' ==> s == "0";
  }

  function Values(ids: seq<Identifier>): (r: seq<string>)
    ensures |r| == |ids|
  {
    seq(|ids|, i requires 0 <= i < |ids| => ids[i].value)
  }

  function CoreText(v: Version): string {
    Join([NatToString(v.major), NatToString(v.minor), NatToString(v.patch)], ".")
  }

  /** The display form. */
  function Render(v: Version): string {
    if v.prerelease == [] then CoreText(v) else CoreText(v) + "-" + Join(Values(v.prerelease), ".")
  }

  lemma ComponentRender(n: nat)
    requires n <= MAX_INT64
    ensures Component(NatToString(n)) == Some(n)
  {
    ParseIntToString(n);
    assert Canonical(NatToString(n));
  }

  lemma ComponentCanonical(s: string)
    requires Component(s).Some?
    ensures NatToString(Component(s).value) == s && Component(s).value <= MAX_INT64
  {
    assert s[0] != '-' && s[0] != '+';
    NatToStringInverse(s);
  }

  lemma {:induction false} IdentifiersRender(ids: seq<Identifier>, n: nat)
    requires n <= |ids|
    requires forall i :: 0 <= i < |ids| ==> PrereleaseIdentifier(ids[i].value) && ids[i].numeric == IsNumeric(ids[i].value)
    ensures Identifiers(Values(ids), n) == Some(ids[..n])
    decreases n
  {
    hide PrereleaseIdentifier, IsNumeric;
    if n > 0 {
      IdentifiersRender(ids, n - 1);
      assert ids[n - 1] == Identifier(ids[n - 1].value, IsNumeric(ids[n - 1].value));
      assert ids[..n] == ids[..n - 1] + [ids[n - 1]];
    }
  }

  lemma {:induction false} IdentifiersBack(parts: seq<string>, n: nat)
    requires n <= |parts| && Identifiers(parts, n).Some?
    ensures var ids := Identifiers(parts, n).value;
      && |ids| == n
      && forall i :: 0 <= i < n ==> ids[i] == Identifier(parts[i], IsNumeric(parts[i])) && PrereleaseIdentifier(parts[i])
    decreases n
  {
    hide PrereleaseIdentifier, IsNumeric;
    if n > 0 { IdentifiersBack(parts, n - 1); }
  }

  lemma NoCharInNumber(n: nat, c: char)
    requires !IsDigit(c)
    ensures c !in NatToString(n)
  {
    var s := NatToString(n);
    assert AllDigits(s);
  }

  lemma CoreTextParses(v: Version)
    requires WellFormed(v)
    ensures Core(CoreText(v)) == Some((v.major, v.minor, v.patch))
  {
    hide NatToString, Component;
    NoCharInNumber(v.major, '.');
    NoCharInNumber(v.minor, '.');
    NoCharInNumber(v.patch, '.');
    SplitJoin([NatToString(v.major), NatToString(v.minor), NatToString(v.patch)], '.');
    ComponentRender(v.major);
    ComponentRender(v.minor);
    ComponentRender(v.patch);
  }

  lemma CoreTextIs(v: Version)
    ensures CoreText(v) == NatToString(v.major) + "." + NatToString(v.minor) + "." + NatToString(v.patch)
  {
    hide NatToString, Join;
    JoinThree(NatToString(v.major), NatToString(v.minor), NatToString(v.patch), ".");
  }

  lemma CoreTextChars(v: Version)
    ensures CoreText(v) != "" && IsDigit(CoreText(v)[0])
    ensures '-' !in CoreText(v) && '+' !in CoreText(v)
  {
    CoreTextIs(v);
    NoCharInNumber(v.major, '-');
    NoCharInNumber(v.minor, '-');
    NoCharInNumber(v.patch, '-');
    NoCharInNumber(v.major, '+');
    NoCharInNumber(v.minor, '+');
    NoCharInNumber(v.patch, '+');
    assert AllDigits(NatToString(v.major));
  }

  /** An identifier holds no separator, and neither do the texts made of them. */
  lemma IdentifierChars(s: string)
    requires PrereleaseIdentifier(s)
    ensures s != "" && '.' !in s && '+' !in s
    ensures forall i :: 0 <= i < |s| ==> !IsSpace(s[i])
  {
  }

  lemma {:induction false} JoinChars(parts: seq<string>)
    requires parts != [] && forall i :: 0 <= i < |parts| ==> PrereleaseIdentifier(parts[i])
    ensures var t := Join(parts, "."); t != "" && '+' !in t && !IsSpace(t[|t| - 1])
    decreases |parts|
  {
    hide PrereleaseIdentifier, IsSpace;
    IdentifierChars(parts[0]);
    if |parts| > 1 {
      JoinChars(parts[1..]);
      assert Join(parts, ".") == parts[0] + "." + Join(parts[1..], ".");
    }
  }

  /** Printing a version and parsing it gives the version back. */
  lemma ParseRender(v: Version)
    requires WellFormed(v)
    ensures Bare(Render(v)) == Some(v) && Parse(Render(v)) == Some(v) && Parse("v" + Render(v)) == Some(v)
  {
    hide Join, Split, IsSpace, PrereleaseIdentifier, TrimSpace, Core, Identifiers, CoreText;
    var core, ids := CoreText(v), Values(v.prerelease);
    CoreTextChars(v);
    CoreTextParses(v);
    var s := Render(v);
    if v.prerelease == [] {
      assert s[..|s|] == s;
      assert Index(s, '-') == |s|;
    } else {
      forall i | 0 <= i < |ids| ensures '.' !in ids[i] {
        IdentifierChars(ids[i]);
      }
      var tail := Join(ids, ".");
      JoinChars(ids);
      IndexFirst(core, '-', tail);
      assert s == core + ['-'] + tail;
      assert s[..|core|] == core && s[|core| + 1..] == tail;
      SplitJoin(ids, '.');
      IdentifiersRender(v.prerelease, |ids|);
      assert v.prerelease[..|ids|] == v.prerelease;
    }
    assert Bare(s) == Some(v);
    EndsClean(v);
    TrimClean(s);
    TrimClean("v" + s);
    assert ("v" + s)[1..] == s;
  }

  lemma EndsClean(v: Version)
    requires WellFormed(v)
    ensures var s := Render(v); s != "" && s[0] != 'v' && !IsSpace(s[0]) && !IsSpace(s[|s| - 1])
    ensures !IsSpace('v')
  {
    hide Join, PrereleaseIdentifier;
    CoreTextChars(v);
    if v.prerelease == [] {
      CoreTextIs(v);
      var z := NatToString(v.patch);
      assert AllDigits(z) && IsDigit(z[|z| - 1]);
    } else {
      JoinChars(Values(v.prerelease));
    }
  }

  /** What parses is the printed form of its version: the parser is injective on the text that
      is left once surrounding space and the leading v are gone. */
  lemma RenderParse(input: string)
    requires Parse(input).Some?
    ensures WellFormed(Parse(input).value)
    ensures Render(Parse(input).value) == TrimPrefix(TrimSpace(input), "v")
  {
    hide Join, Split, TrimSpace, PrereleaseIdentifier, Component, NatToString;
    var value := TrimPrefix(TrimSpace(input), "v");
    var v := Parse(input).value;
    var i := Index(value, '-');
    var core := Split(value[..i], '.');
    JoinSplit(value[..i], '.');
    ComponentCanonical(core[0]);
    ComponentCanonical(core[1]);
    ComponentCanonical(core[2]);
    assert core == [core[0], core[1], core[2]];
    if i == |value| {
      assert value[..i] == value;
    } else {
      var parts := Split(value[i + 1..], '.');
      JoinSplit(value[i + 1..], '.');
      IdentifiersBack(parts, |parts|);
      assert Values(v.prerelease) == parts;
      assert value == value[..i] + "-" + value[i + 1..];
    }
  }

  // ----- comparison

  function CompareInts(a: int, b: int): int {
    if a < b then -1 else if a > b then 1 else 0
  }

  /** One turn of the identifier loop: 0 goes on to the next pair. */
  function CompareIdentifiers(left: Identifier, right: Identifier): int {
    if left.numeric && right.numeric && |left.value| != |right.value| then CompareInts(|left.value|, |right.value|)
    else if left.numeric != right.numeric then (if left.numeric then -1 else 1)
    else if left.value != right.value then (if Less(left.value, right.value) then -1 else 1)
    else 0
  }

  function CompareFrom(a: seq<Identifier>, b: seq<Identifier>, i: nat): int
    requires i <= |a| && i <= |b|
    decreases |a| - i
  {
    if i == |a| || i == |b| then CompareInts(|a|, |b|)
    else if CompareIdentifiers(a[i], b[i]) != 0 then CompareIdentifiers(a[i], b[i])
    else CompareFrom(a, b, i + 1)
  }

  function Compare(a: Version, b: Version): int {
    if a.major != b.major then CompareInts(a.major, b.major)
    else if a.minor != b.minor then CompareInts(a.minor, b.minor)
    else if a.patch != b.patch then CompareInts(a.patch, b.patch)
    else if a.prerelease == [] && b.prerelease == [] then 0
    else if a.prerelease == [] then 1
    else if b.prerelease == [] then -1
    else CompareFrom(a.prerelease, b.prerelease, 0)
  }

  method CompareVersions(a: Version, b: Version) returns (r: int)
    ensures r == Compare(a, b)
  {
    hide CompareIdentifiers;
    if a.major != b.major { return CompareInts(a.major, b.major); }
    if a.minor != b.minor { return CompareInts(a.minor, b.minor); }
    if a.patch != b.patch { return CompareInts(a.patch, b.patch); }
    if |a.prerelease| == 0 && |b.prerelease| == 0 { return 0; }
    if |a.prerelease| == 0 { return 1; }
    if |b.prerelease| == 0 { return -1; }
    var i := 0;
    while i < |a.prerelease| && i < |b.prerelease|
      invariant i <= |a.prerelease| && i <= |b.prerelease|
      invariant CompareFrom(a.prerelease, b.prerelease, 0) == CompareFrom(a.prerelease, b.prerelease, i)
    {
      var c := CompareIdentifiers(a.prerelease[i], b.prerelease[i]);
      if c != 0 { return c; }
      i := i + 1;
    }
    return CompareInts(|a.prerelease|, |b.prerelease|);
  }

  // ----- section 11 of Semantic Versioning 2.0.0

  ghost predicate GoodIdentifier(x: Identifier) {
    PrereleaseIdentifier(x.value) && x.numeric == IsNumeric(x.value)
  }

  /** Items 11.4.1 to 11.4.3: numbers by value, other identifiers in ASCII order, numbers first. */
  ghost predicate IdentifierBelow(x: Identifier, y: Identifier)
    requires GoodIdentifier(x) && GoodIdentifier(y)
  {
    if x.numeric && y.numeric then NatValue(x.value) < NatValue(y.value)
    else if x.numeric then true
    else if y.numeric then false
    else Less(x.value, y.value)
  }

  /** Item 11.4.4 on top: the first difference decides, else the longer list is higher. */
  ghost predicate ListBelow(a: seq<Identifier>, b: seq<Identifier>, i: nat)
    requires i <= |a| && i <= |b|
    requires (forall k :: 0 <= k < |a| ==> GoodIdentifier(a[k])) && (forall k :: 0 <= k < |b| ==> GoodIdentifier(b[k]))
    decreases |a| - i
  {
    if i == |b| then false
    else if i == |a| then true
    else if a[i] == b[i] then ListBelow(a, b, i + 1)
    else IdentifierBelow(a[i], b[i])
  }

  /** Precedence: major, minor, patch, then a pre-release below its release. */
  ghost predicate Below(a: Version, b: Version)
    requires WellFormed(a) && WellFormed(b)
  {
    if a.major != b.major then a.major < b.major
    else if a.minor != b.minor then a.minor < b.minor
    else if a.patch != b.patch then a.patch < b.patch
    else if a.prerelease == [] then false
    else if b.prerelease == [] then true
    else ListBelow(a.prerelease, b.prerelease, 0)
  }

  /** The length-then-lexicographic test on numeric identifiers is comparison by value, because
      the parser lets no leading zero through. */
  lemma NumericByLength(x: string, y: string)
    requires PrereleaseIdentifier(x) && PrereleaseIdentifier(y) && IsNumeric(x) && IsNumeric(y)
    ensures NatValue(x) < NatValue(y) <==> |x| < |y| || (|x| == |y| && Less(x, y))
  {
    hide Less, NatValue;
    if |x| == |y| {
      LessIsNumeric(x, y);
    } else if |x| < |y| {
      ShorterBelow(x, y);
    } else {
      ShorterBelow(y, x);
    }
  }

  lemma ShorterBelow(x: string, y: string)
    requires IsNumeric(x) && IsNumeric(y) && |x| < |y| && PrereleaseIdentifier(y)
    ensures NatValue(x) < NatValue(y)
  {
    NatValueBounds(x);
    NatValueBounds(y);
    Pow10Monotone(|x|, |y| - 1);
  }

  lemma IdentifiersAgree(x: Identifier, y: Identifier)
    requires GoodIdentifier(x) && GoodIdentifier(y)
    ensures CompareIdentifiers(x, y) == -1 <==> IdentifierBelow(x, y)
    ensures CompareIdentifiers(x, y) == 0 <==> x == y
    ensures CompareIdentifiers(x, y) in {-1, 0, 1}
    ensures x != y ==> (IdentifierBelow(x, y) <==> !IdentifierBelow(y, x))
  {
    hide Less, NatValue, PrereleaseIdentifier;
    if x.numeric && y.numeric {
      NumericByLength(x.value, y.value);
      NumericByLength(y.value, x.value);
    }
    if x.value != y.value {
      LessTotal(x.value, y.value);
      Asymmetric(x.value, y.value);
    } else {
      LessIrreflexive(x.value);
    }
  }

  lemma Asymmetric(a: string, b: string)
    ensures !(Less(a, b) && Less(b, a))
  {
    if Less(a, b) && Less(b, a) {
      LessTransitive(a, b, a);
      LessIrreflexive(a);
    }
  }

  lemma {:induction false} ListsAgree(a: seq<Identifier>, b: seq<Identifier>, i: nat)
    requires i <= |a| && i <= |b| && a[..i] == b[..i]
    requires (forall k :: 0 <= k < |a| ==> GoodIdentifier(a[k])) && (forall k :: 0 <= k < |b| ==> GoodIdentifier(b[k]))
    ensures CompareFrom(a, b, i) == -1 <==> ListBelow(a, b, i)
    ensures CompareFrom(a, b, i) == 1 <==> ListBelow(b, a, i)
    ensures CompareFrom(a, b, i) == 0 <==> a == b
    ensures CompareFrom(a, b, i) in {-1, 0, 1}
    decreases |a| - i
  {
    hide CompareIdentifiers, IdentifierBelow, GoodIdentifier;
    if i == |a| || i == |b| {
      assert a[..|a|] == a && b[..|b|] == b;
    } else {
      IdentifiersAgree(a[i], b[i]);
      if a[i] == b[i] {
        assert a[..i + 1] == a[..i] + [a[i]] && b[..i + 1] == b[..i] + [b[i]];
        ListsAgree(a, b, i + 1);
      }
    }
  }

  /** CompareVersions is the precedence of section 11: -1 below, 1 above, and 0 only for the
      same version. */
  lemma CompareIsPrecedence(a: Version, b: Version)
    requires WellFormed(a) && WellFormed(b)
    ensures Compare(a, b) == -1 <==> Below(a, b)
    ensures Compare(a, b) == 1 <==> Below(b, a)
    ensures Compare(a, b) == 0 <==> a == b
    ensures Compare(a, b) in {-1, 0, 1}
  {
    hide CompareFrom, ListBelow, PrereleaseIdentifier;
    ListsAgree(a.prerelease, b.prerelease, 0);
  }

  lemma IdentifierTransitive(x: Identifier, y: Identifier, z: Identifier)
    requires GoodIdentifier(x) && GoodIdentifier(y) && GoodIdentifier(z)
    ensures IdentifierBelow(x, y) && IdentifierBelow(y, z) ==> IdentifierBelow(x, z)
    ensures !IdentifierBelow(x, x)
  {
    hide PrereleaseIdentifier, NatValue;
    LessIrreflexive(x.value);
    if Less(x.value, y.value) && Less(y.value, z.value) {
      LessTransitive(x.value, y.value, z.value);
    }
  }

  lemma {:induction false} ListTransitive(a: seq<Identifier>, b: seq<Identifier>, c: seq<Identifier>, i: nat)
    requires i <= |a| && i <= |b| && i <= |c|
    requires (forall k :: 0 <= k < |a| ==> GoodIdentifier(a[k])) && (forall k :: 0 <= k < |b| ==> GoodIdentifier(b[k]))
    requires forall k :: 0 <= k < |c| ==> GoodIdentifier(c[k])
    requires ListBelow(a, b, i) && ListBelow(b, c, i)
    ensures ListBelow(a, c, i)
    decreases |a| - i
  {
    hide IdentifierBelow, GoodIdentifier;
    if i < |a| && i < |b| && i < |c| {
      IdentifierTransitive(a[i], b[i], c[i]);
      if a[i] == b[i] && b[i] == c[i] {
        ListTransitive(a, b, c, i + 1);
      } else {
        IdentifiersAgree(a[i], b[i]);
        IdentifiersAgree(b[i], c[i]);
      }
    }
  }

  /** Precedence is a strict total order on parsed versions. */
  lemma PrecedenceOrder(a: Version, b: Version, c: Version)
    requires WellFormed(a) && WellFormed(b) && WellFormed(c)
    ensures !Below(a, a)
    ensures Below(a, b) && Below(b, c) ==> Below(a, c)
    ensures a != b ==> Below(a, b) || Below(b, a)
  {
    hide ListBelow, PrereleaseIdentifier, Compare;
    CompareIsPrecedence(a, a);
    CompareIsPrecedence(a, b);
    if Below(a, b) && Below(b, c) && a.prerelease != [] && b.prerelease != [] && c.prerelease != []
      && ListBelow(a.prerelease, b.prerelease, 0) && ListBelow(b.prerelease, c.prerelease, 0) {
      ListTransitive(a.prerelease, b.prerelease, c.prerelease, 0);
    }
  }
}
