/** Which release the RC channel picks. */
module Releases {
  import opened Text
  import opened Versions

  /** A release as the collection endpoint lists it. `trusted` stands for the two URL checks. */
  datatype Release = Release(tag: string, draft: bool, prerelease: bool, trusted: bool)

  predicate Digits(s: string) {
    s != "" && AllDigits(s)
  }

  /** v[0-9]+\.[0-9]+\.[0-9]+-rc\.[1-9][0-9]* over the whole tag. */
  predicate RCTagPattern(tag: string) {
    HasPrefix(tag, "v") &&
    var rest := tag[1..];
    var i := Index(rest, '-');
    i < |rest| &&
    var core, suffix := Split(rest[..i], '.'), rest[i + 1..];
    && |core| == 3 && Digits(core[0]) && Digits(core[1]) && Digits(core[2])
    && HasPrefix(suffix, "rc.") && Digits(suffix[3..]) && suffix[3] != '0'
  }

  /** isApprovedRCTag, with the fork's own version text as a parameter. */
  predicate ApprovedRCTag(tag: string, forkVersion: string) {
    RCTagPattern(tag) &&
    var candidate, stable := Parse(tag), Parse(forkVersion);
    && candidate.Some? && |candidate.value.prerelease| == 2
    && candidate.value.prerelease[0].value == "rc" && candidate.value.prerelease[1].numeric
    && stable.Some? && stable.value.prerelease == []
    && candidate.value.major == stable.value.major && candidate.value.minor == stable.value.minor
    && candidate.value.patch == stable.value.patch
  }

  /** ValidateRelease on the RC channel. */
  predicate ValidRC(r: Release, forkVersion: string) {
    !r.draft && r.prerelease && ApprovedRCTag(r.tag, forkVersion) && r.trusted
  }

  /** CompareVersionStrings */
  function CompareStrings(a: string, b: string): Option<int> {
    var left, right := Parse(a), Parse(b);
    if left.Some? && right.Some? then Some(Compare(left.value, right.value)) else None
  }

  /** A trusted candidate that is not below the running version. */
  predicate Eligible(r: Release, current: string, forkVersion: string) {
    && ValidRC(r, forkVersion)
    && CompareStrings(r.tag, current).Some? && CompareStrings(r.tag, current).value >= 0
  }

  // ----- told from the text of the tag

  /** A positive number without leading zeros. */
  predicate Count(n: string) {
    n != "" && AllDigits(n) && n[0] != '0'
  }

  /** The tag is the fork's own version, which is a stable one, and a count of candidates. */
  ghost predicate RCOf(tag: string, forkVersion: string) {
    && Parse(forkVersion).Some? && Parse(forkVersion).value.prerelease == []
    && exists n :: Count(n) && tag == "v" + Render(Parse(forkVersion).value) + "-rc." + n
  }

  /** A published, trusted prerelease of the fork's version that is not below what runs. */
  ghost predicate Offered(r: Release, current: string, forkVersion: string) {
    && !r.draft && r.prerelease && r.trusted && RCOf(r.tag, forkVersion)
    && Parse(r.tag).Some? && Parse(current).Some?
    && WellFormed(Parse(r.tag).value) && WellFormed(Parse(current).value)
    && !Below(Parse(r.tag).value, Parse(current).value)
  }

  /** The version of a candidate. */
  function Candidate(stable: Version, n: string): Version {
    stable.(prerelease := [Identifier("rc", false), Identifier(n, true)])
  }

  lemma CandidateText(stable: Version, n: string)
    requires WellFormed(stable) && stable.prerelease == [] && Count(n)
    ensures WellFormed(Candidate(stable, n)) && Render(Candidate(stable, n)) == Render(stable) + "-rc." + n
  {
    hide CoreText;
    var c := Candidate(stable, n);
    assert "rc"[0] == 'r' && "rc"[1] == 'c';
    assert Values(c.prerelease) == ["rc", n];
    assert ["rc", n][1..] == [n] && Join([n], ".") == n;
    assert Join(["rc", n], ".") == "rc" + "." + n;
    assert CoreText(c) == CoreText(stable) by { CoreSame(stable, c); }
    assert CoreText(stable) + "-" + ("rc" + "." + n) == CoreText(stable) + "-rc." + n;
  }

  lemma CoreSame(a: Version, b: Version)
    requires a.major == b.major && a.minor == b.minor && a.patch == b.patch
    ensures CoreText(a) == CoreText(b)
  {
  }

  /** A tag of that form matches the pattern and parses. */
  lemma RCMatches(stable: Version, n: string)
    requires WellFormed(stable) && stable.prerelease == [] && Count(n)
    ensures var tag := "v" + Render(stable) + "-rc." + n; RCTagPattern(tag) && Parse(tag) == Some(Candidate(stable, n))
  {
    hide CoreText, Split, Parse, Render, NatToString, Component, Candidate, WellFormed;
    var tag, core := "v" + Render(stable) + "-rc." + n, Render(stable);
    CandidateText(stable, n);
    ParseRender(Candidate(stable, n));
    assert tag == "v" + Render(Candidate(stable, n));
    CoreParts(stable);
    IndexFirst(core, '-', "rc." + n);
    assert tag[1..] == core + "-" + ("rc." + n);
    assert tag[1..][..|core|] == core && tag[1..][|core| + 1..] == "rc." + n;
    assert ("rc." + n)[..3] == "rc." && ("rc." + n)[3..] == n && ("rc." + n)[3] == n[0];
  }

  lemma CoreParts(v: Version)
    requires WellFormed(v) && v.prerelease == []
    ensures var parts := Split(Render(v), '.'); |parts| == 3 && Digits(parts[0]) && Digits(parts[1]) && Digits(parts[2])
    ensures '-' !in Render(v)
  {
    hide CoreText, Split, NatToString;
    CoreTextParses(v);
    CoreTextChars(v);
  }

  /** What matches the pattern is trimmed and starts with v. */
  lemma PatternText(tag: string)
    requires RCTagPattern(tag)
    ensures TrimPrefix(TrimSpace(tag), "v") == tag[1..] && tag == "v" + tag[1..]
  {
    hide Split, Index;
    var rest := tag[1..];
    var i := Index(rest, '-');
    var n := rest[i + 1..][3..];
    assert tag[|tag| - 1] == n[|n| - 1];
    assert tag[0] == 'v';
    TrimClean(tag);
  }

  /** The approved tags are "v", the fork's version, "-rc." and a positive number. */
  lemma ApprovedIff(tag: string, forkVersion: string)
    ensures ApprovedRCTag(tag, forkVersion) <==> RCOf(tag, forkVersion)
  {
    hide Parse, RCTagPattern, Render, CoreText, WellFormed;
    if Parse(forkVersion).Some? { RenderParse(forkVersion); }
    if ApprovedRCTag(tag, forkVersion) {
      var stable, c := Parse(forkVersion).value, Parse(tag).value;
      RenderParse(tag);
      PatternText(tag);
      var n := c.prerelease[1].value;
      CountOf(tag, c, n);
      IdentifiersKnown(c);
      assert c == Candidate(stable, n);
      CandidateText(stable, n);
      assert tag == "v" + Render(stable) + "-rc." + n;
    } else if RCOf(tag, forkVersion) {
      var n :| Count(n) && tag == "v" + Render(Parse(forkVersion).value) + "-rc." + n;
      RCMatches(Parse(forkVersion).value, n);
    }
  }

  lemma IdentifiersKnown(c: Version)
    requires WellFormed(c) && |c.prerelease| == 2 && c.prerelease[0].value == "rc" && c.prerelease[1].numeric
    ensures c.prerelease == [Identifier("rc", false), Identifier(c.prerelease[1].value, true)]
  {
    assert "rc"[0] == 'r';
  }

  lemma CountOf(tag: string, c: Version, n: string)
    requires RCTagPattern(tag) && WellFormed(c) && Render(c) == tag[1..]
    requires |c.prerelease| == 2 && c.prerelease[0].value == "rc" && c.prerelease[1].value == n && c.prerelease[1].numeric
    ensures Count(n)
  {
    hide CoreText, Split;
    var core := CoreText(c);
    CoreTextChars(c);
    assert Values(c.prerelease) == ["rc", n];
    assert ["rc", n][1..] == [n] && Join([n], ".") == n;
    assert tag[1..] == core + "-" + ("rc" + "." + n);
    IndexFirst(core, '-', "rc" + "." + n);
    assert tag[1..][|core| + 1..] == "rc" + "." + n;
    assert ("rc" + "." + n)[3..] == n;
  }

  lemma EligibleIff(r: Release, current: string, forkVersion: string)
    ensures Eligible(r, current, forkVersion) <==> Offered(r, current, forkVersion)
  {
    hide ApprovedRCTag, RCOf, Parse, Compare, Below, WellFormed;
    ApprovedIff(r.tag, forkVersion);
    if Parse(r.tag).Some? { RenderParse(r.tag); }
    if Parse(current).Some? { RenderParse(current); }
    if Parse(r.tag).Some? && Parse(current).Some? { CompareIsPrecedence(Parse(r.tag).value, Parse(current).value); }
  }

  /** Two eligible tags always compare, and their order is the version order. */
  lemma EligibleCompare(a: Release, b: Release, current: string, forkVersion: string)
    requires Eligible(a, current, forkVersion) && Eligible(b, current, forkVersion)
    ensures Parse(a.tag).Some? && WellFormed(Parse(a.tag).value) && Parse(b.tag).Some? && WellFormed(Parse(b.tag).value)
    ensures CompareStrings(a.tag, b.tag).Some?
    ensures CompareStrings(a.tag, b.tag).value > 0 <==> Below(Parse(b.tag).value, Parse(a.tag).value)
  {
    hide RCTagPattern, Parse, Compare, Below, WellFormed;
    RenderParse(a.tag);
    RenderParse(b.tag);
    CompareIsPrecedence(Parse(a.tag).value, Parse(b.tag).value);
  }

  /** selectRCRelease: the index of the selected release, or None for "no approved release". */
  method SelectRCRelease(releases: seq<Release>, current: string, forkVersion: string) returns (selected: Option<nat>)
    ensures selected.None? <==> forall i :: 0 <= i < |releases| ==> !Offered(releases[i], current, forkVersion)
    ensures selected.Some? ==>
      && selected.value < |releases| && Offered(releases[selected.value], current, forkVersion)
      && forall i :: 0 <= i < |releases| && Offered(releases[i], current, forkVersion) ==>
        !Outranks(releases[i], releases[selected.value]) && (i < selected.value ==> Outranks(releases[selected.value], releases[i]))
  {
    hide Eligible, Offered, Outranks;
    forall i | 0 <= i < |releases| ensures Eligible(releases[i], current, forkVersion) <==> Offered(releases[i], current, forkVersion) {
      EligibleIff(releases[i], current, forkVersion);
    }
    selected := None;
    for i := 0 to |releases|
      invariant selected.None? <==> forall k :: 0 <= k < i ==> !Eligible(releases[k], current, forkVersion)
      invariant selected.Some? ==>
        && selected.value < i && Eligible(releases[selected.value], current, forkVersion)
        && forall k :: 0 <= k < i && Eligible(releases[k], current, forkVersion) ==>
          !Outranks(releases[k], releases[selected.value]) && (k < selected.value ==> Outranks(releases[selected.value], releases[k]))
    {
      var accepted := Accepted(releases[i], current, forkVersion);
      if !accepted {
        continue;
      }
      if selected.None? {
        OutranksOrder(releases[i], releases[i], releases[i], current, forkVersion);
        selected := Some(i);
        continue;
      }
      ghost var before := releases[selected.value];
      forall k | 0 <= k < i && Eligible(releases[k], current, forkVersion)
        ensures Outranks(releases[i], before) ==> !Outranks(releases[k], releases[i]) && Outranks(releases[i], releases[k])
      {
        OutranksOrder(releases[i], before, releases[k], current, forkVersion);
      }
      OutranksOrder(releases[i], before, before, current, forkVersion);
      if Newer(releases[i], releases[selected.value]) {
        selected := Some(i);
      }
    }
  }

  /** Strictly newer, in the order of section 11. */
  ghost predicate Outranks(a: Release, b: Release) {
    && Parse(a.tag).Some? && Parse(b.tag).Some?
    && WellFormed(Parse(a.tag).value) && WellFormed(Parse(b.tag).value)
    && Below(Parse(b.tag).value, Parse(a.tag).value)
  }

  /** The two skips at the top of the loop. */
  method Accepted(r: Release, current: string, forkVersion: string) returns (ok: bool)
    ensures ok <==> Eligible(r, current, forkVersion)
  {
    hide ValidRC, CompareStrings;
    if !ValidRC(r, forkVersion) {
      return false;
    }
    var comparison := CompareStrings(r.tag, current);
    return comparison.Some? && comparison.value >= 0;
  }

  /** The comparison that replaces the selection. */
  function Newer(a: Release, b: Release): bool {
    var comparison := CompareStrings(a.tag, b.tag);
    comparison.Some? && comparison.value > 0
  }

  lemma OutranksOrder(a: Release, b: Release, c: Release, current: string, forkVersion: string)
    requires Eligible(a, current, forkVersion) && Eligible(b, current, forkVersion) && Eligible(c, current, forkVersion)
    ensures Newer(a, b) <==> Outranks(a, b)
    ensures !Outranks(a, a)
    ensures Outranks(a, b) && !Outranks(c, b) ==> Outranks(a, c) && !Outranks(c, a)
  {
    hide Eligible, Below, WellFormed, Compare, Parse;
    EligibleCompare(a, b, current, forkVersion);
    EligibleCompare(b, c, current, forkVersion);
    var x, y, z := Parse(a.tag).value, Parse(b.tag).value, Parse(c.tag).value;
    PrecedenceOrder(x, y, z);
    PrecedenceOrder(z, y, x);
    PrecedenceOrder(x, z, y);
    PrecedenceOrder(z, x, y);
    PrecedenceOrder(y, z, x);
    PrecedenceOrder(x, z, x);
    PrecedenceOrder(y, z, y);
  }
}
