/** Version ordering for self-update (cmd/teepin-agent/selfupdate.go). */
module Versions {
  import opened Options
  import opened Text

  // ---------------------------------------------------------------------
  // Reading a tag
  // ---------------------------------------------------------------------

  const TWO_TO_63: int := 0x8000_0000_0000_0000

  function TrimPrefix(s: string, prefix: string): string {
    if HasPrefix(s, prefix) then s[|prefix|..] else s
  }

  /** A 64-bit decimal with an optional sign. */
  function Atoi(s: string): Option<int> {
    var negative := HasPrefix(s, "-");
    var digits := if negative || HasPrefix(s, "+") then s[1..] else s;
    if digits == "" || !AllDigits(digits) then None
    else
      var size: int := Value(digits);
      var n := if negative then -size else size;
      if -TWO_TO_63 <= n < TWO_TO_63 then Some(n) else None
  }

  function Numbers(fields: seq<string>): Option<seq<int>> {
    if fields == [] then Some([])
    else
      var before, last := Numbers(fields[..|fields| - 1]), Atoi(fields[|fields| - 1]);
      if before.Some? && last.Some? then Some(before.value + [last.value]) else None
  }

  function Bare(tag: string): string {
    TrimPrefix(TrimPrefix(tag, "agent-"), "v")
  }

  /** The components of a tag, if it is one. */
  function Parts(tag: string): Option<seq<int>> {
    if Bare(tag) == "" then None else Numbers(Split(Bare(tag), '.'))
  }

  method ParseVersionParts(tag: string) returns (parts: seq<int>, ok: bool)
    ensures ok <==> Parts(tag).Some?
    ensures ok ==> parts == Parts(tag).value
  {
    var s := TrimPrefix(tag, "agent-");
    s := TrimPrefix(s, "v");
    if s == "" {
      return [], false;
    }
    var fields := Split(s, '.');
    parts := [];
    for i := 0 to |fields|
      invariant Numbers(fields[..i]) == Some(parts)
      invariant |parts| == i
    {
      assert fields[..i + 1][..i] == fields[..i];
      var n := Atoi(fields[i]);
      if n.None? {
        NotNumbers(fields, i);
        return [], false;
      }
      parts := parts + [n.value];
    }
    assert fields[..|fields|] == fields;
    return parts, |parts| > 0;
  }

  lemma {:induction false} NotNumbers(fields: seq<string>, i: nat)
    requires i < |fields| && Atoi(fields[i]).None?
    ensures Numbers(fields).None?
    decreases fields
  {
    if i < |fields| - 1 {
      NotNumbers(fields[..|fields| - 1], i);
    }
  }

  /** Numbers may carry a sign, and must fit in 64 bits with it. */
  lemma AtoiOfDigits(digits: string)
    requires digits != "" && AllDigits(digits)
    ensures Atoi(digits) == if Value(digits) < TWO_TO_63 then Some(Value(digits)) else None
    ensures Atoi("+" + digits) == Atoi(digits)
  {
    assert Digit(digits[0]);
    assert ("+" + digits)[0] == '+' && ("+" + digits)[1..] == digits;
  }

  lemma AtoiOfNegative(digits: string)
    requires digits != "" && AllDigits(digits)
    ensures var size: int := Value(digits); Atoi("-" + digits) == if size <= TWO_TO_63 then Some(-size) else None
  {
    assert ("-" + digits)[0] == '-' && ("-" + digits)[1..] == digits;
  }

  lemma OneMoreNumber(parts: seq<nat>, n: nat)
    requires Numbers(Decimals(parts)) == Some(parts) && n < TWO_TO_63
    ensures Numbers(Decimals(parts + [n])) == Some(parts + [n])
  {
    var fields := Decimals(parts);
    OneMoreDecimal(parts, n);
    AtoiOfDigits(Decimal(n));
    assert (fields + [Decimal(n)])[..|fields|] == fields;
  }

  lemma {:induction false} NumbersOfDecimals(parts: seq<nat>)
    requires forall i | 0 <= i < |parts| :: parts[i] < TWO_TO_63
    ensures Numbers(Decimals(parts)) == Some(parts)
  {
    if parts != [] {
      var rest, last := parts[..|parts| - 1], parts[|parts| - 1];
      assert rest + [last] == parts;
      NumbersOfDecimals(rest);
      OneMoreNumber(rest, last);
    }
  }

  /** A release tag, a bare tag and a plain version all read back as the version
      they were written from. */
  lemma TagsRoundTrip(parts: seq<nat>)
    requires parts != [] && forall i | 0 <= i < |parts| :: parts[i] < TWO_TO_63
    ensures var version := Join(Decimals(parts), '.');
            Parts("agent-v" + version) == Parts("v" + version) == Parts(version) == Some(parts)
  {
    var version := Join(Decimals(parts), '.');
    PartsOfVersion(parts);
    BareTags(version);
  }

  lemma PartsOfVersion(parts: seq<nat>)
    requires parts != [] && forall i | 0 <= i < |parts| :: parts[i] < TWO_TO_63
    ensures var version := Join(Decimals(parts), '.');
            version != "" && Digit(version[0]) && Numbers(Split(version, '.')) == Some(parts)
  {
    var fields := Decimals(parts);
    forall i | 0 <= i < |fields| ensures '.' !in fields[i] {
      assert forall k | 0 <= k < |fields[i]| :: Digit(fields[i][k]);
    }
    SplitJoined(fields, '.');
    NumbersOfDecimals(parts);
    assert Join(fields, '.')[0] == fields[0][0];
  }

  lemma BareTags(version: string)
    requires version != "" && Digit(version[0])
    ensures Bare("agent-v" + version) == version && Bare("v" + version) == version && Bare(version) == version
  {
    assert ("agent-v" + version)[..6] == "agent-" && ("agent-v" + version)[6..] == "v" + version;
    assert ("v" + version)[..1] == "v" && ("v" + version)[1..] == version;
    assert ("v" + version)[0] == 'v';
  }

  // ---------------------------------------------------------------------
  // The order
  // ---------------------------------------------------------------------

  /** A version is as if followed by zeros for ever. */
  function At(parts: seq<int>, i: nat): int {
    if i < |parts| then parts[i] else 0
  }

  ghost predicate Same(a: seq<int>, b: seq<int>, n: nat) {
    forall i: nat | i < n :: At(a, i) == At(b, i)
  }

  /** Greater at the first place where they differ. */
  ghost predicate Above(a: seq<int>, b: seq<int>) {
    exists i: nat :: At(a, i) > At(b, i) && Same(a, b, i)
  }

  /** Equal but for trailing zeros. */
  ghost predicate Equivalent(a: seq<int>, b: seq<int>) {
    forall i: nat :: At(a, i) == At(b, i)
  }

  ghost predicate Newer(latest: string, current: string) {
    Parts(latest).Some? && Parts(current).Some? && Above(Parts(latest).value, Parts(current).value)
  }

  method IsNewerVersion(latest: string, current: string) returns (newer: bool)
    ensures newer <==> Newer(latest, current)
  {
    var lp, ok1 := ParseVersionParts(latest);
    var cp, ok2 := ParseVersionParts(current);
    if !ok1 || !ok2 {
      return false;
    }
    var i := 0;
    while i < |lp| || i < |cp|
      invariant Same(lp, cp, i)
      decreases |lp| + |cp| - i
    {
      var l, c := 0, 0;
      if i < |lp| {
        l := lp[i];
      }
      if i < |cp| {
        c := cp[i];
      }
      assert l == At(lp, i) && c == At(cp, i);
      if l != c {
        FirstDifferenceDecides(lp, cp, i);
        return l > c;
      }
      i := i + 1;
    }
    assert Equivalent(lp, cp);
    return false;
  }

  lemma FirstDifferenceDecides(a: seq<int>, b: seq<int>, i: nat)
    requires Same(a, b, i) && At(a, i) != At(b, i)
    ensures Above(a, b) <==> At(a, i) > At(b, i)
  {
  }

  lemma AboveIsIrreflexive(a: seq<int>, b: seq<int>)
    requires Equivalent(a, b)
    ensures !Above(a, b)
  {
  }

  lemma AboveIsTransitive(a: seq<int>, b: seq<int>, c: seq<int>)
    requires Above(a, b) && Above(b, c)
    ensures Above(a, c)
  {
    var i: nat :| At(a, i) > At(b, i) && Same(a, b, i);
    var j: nat :| At(b, j) > At(c, j) && Same(b, c, j);
    var k := if i < j then i else j;
    assert At(a, k) > At(c, k) && Same(a, c, k);
  }

  lemma NewerIsTransitive(a: string, b: string, c: string)
    requires Newer(a, b) && Newer(b, c)
    ensures Newer(a, c)
  {
    AboveIsTransitive(Parts(a).value, Parts(b).value, Parts(c).value);
  }

  /** Of any two versions one is above the other, or they are the same but for
      trailing zeros - and never two of these. */
  lemma AboveIsTotal(a: seq<int>, b: seq<int>)
    ensures Above(a, b) || Above(b, a) || Equivalent(a, b)
    ensures !(Above(a, b) && Above(b, a)) && !(Above(a, b) && Equivalent(a, b))
  {
    if Equivalent(a, b) {
      AboveIsIrreflexive(a, b);
    }
    var i := 0;
    while i < |a| + |b| && At(a, i) == At(b, i)
      invariant Same(a, b, i)
    {
      i := i + 1;
    }
    if i < |a| + |b| {
      FirstDifferenceDecides(a, b, i);
      FirstDifferenceDecides(b, a, i);
    } else {
      assert Equivalent(a, b);
    }
  }

  /** A version is the same with more zeros behind it, and below what it is
      with a number behind it. */
  lemma MoreParts(parts: seq<int>, n: int)
    ensures Equivalent(parts + [0], parts)
    ensures n > 0 ==> Above(parts + [n], parts)
  {
    if n > 0 {
      assert At(parts + [n], |parts|) > At(parts, |parts|) && Same(parts + [n], parts, |parts|);
    }
  }

  // ---------------------------------------------------------------------
  // Updating
  // ---------------------------------------------------------------------

  /** A release: its tag, and whether it has an archive for this machine and a
      list of checksums. */
  datatype Release = Release(tag: string, archive: bool, sums: bool)

  /** One check: the latest release, the digest of the downloaded archive and
      the one listed for it, as far as they could be had, and whether the binary
      can be unpacked and put in place. */
  datatype Check = Check(
    latest: Option<Release>, downloaded: Option<string>, listed: Option<string>, unpacks: bool, swaps: bool)

  /** The release can be installed. */
  predicate Installable(c: Check) {
    && c.latest.Some? && c.latest.value.archive && c.latest.value.sums
    && c.downloaded.Some? && c.listed == c.downloaded && c.unpacks && c.swaps
  }

  ghost function Updated(version: string, c: Check): string {
    if Installable(c) && Newer(c.latest.value.tag, version) then c.latest.value.tag else version
  }

  /** An agent, by the version it was stamped with. */
  class Agent {
    var version: string

    method CheckAndSelfUpdate(c: Check)
      modifies this
      ensures version == Updated(old(version), c)
    {
      if c.latest.None? {
        return;
      }
      var release := c.latest.value;
      var newer := IsNewerVersion(release.tag, version);
      if !newer {
        return;
      }
      if !release.archive || !release.sums {
        return;
      }
      if c.downloaded.None? || c.listed.None? || c.downloaded.value != c.listed.value {
        return;
      }
      if !c.unpacks || !c.swaps {
        return;
      }
      version := release.tag;
    }
  }

  /** The version after each check. */
  ghost function History(version: string, cs: seq<Check>): (h: seq<string>)
    ensures |h| == |cs| + 1 && h[0] == version
    decreases cs
  {
    if cs == [] then [version] else [version] + History(Updated(version, cs[0]), cs[1..])
  }

  /** The same version still, or a newer one. */
  ghost predicate NotBefore(a: string, b: string) {
    a == b || Newer(a, b)
  }

  lemma NotBeforeIsTransitive(a: string, b: string, c: string)
    requires NotBefore(a, b) && NotBefore(b, c)
    ensures NotBefore(a, c)
  {
    if a != b && b != c {
      NewerIsTransitive(a, b, c);
    }
  }

  /** Over any sequence of checks, whatever is released and whatever fails:
      every later version is the same one still, or a newer one. */
  lemma {:induction false} NeverGoesBack(version: string, cs: seq<Check>, i: nat, j: nat)
    requires i <= j <= |cs|
    ensures NotBefore(History(version, cs)[j], History(version, cs)[i])
    decreases cs, j
  {
    if 0 < j {
      var next := Updated(version, cs[0]);
      var rest := History(next, cs[1..]);
      assert History(version, cs) == [version] + rest;
      NeverGoesBack(next, cs[1..], if i == 0 then 0 else i - 1, j - 1);
      if i == 0 {
        NotBeforeIsTransitive(rest[j - 1], next, version);
      }
    }
  }

  /** So a version that was left is never installed again, under any name. */
  lemma NeverReturns(version: string, cs: seq<Check>, i: nat, j: nat, k: nat)
    requires i <= j <= k <= |cs|
    ensures var h := History(version, cs);
            && (h[j] != h[i] ==> h[k] != h[i])
            && (h[j] != h[i] ==> Parts(h[k]).Some? && Parts(h[i]).Some? &&
                                 !Equivalent(Parts(h[k]).value, Parts(h[i]).value) && !Newer(h[i], h[k]))
  {
    var h := History(version, cs);
    NeverGoesBack(version, cs, i, j);
    NeverGoesBack(version, cs, j, k);
    if h[j] != h[i] {
      if h[k] != h[j] {
        NewerIsTransitive(h[k], h[j], h[i]);
      }
      AboveIsTotal(Parts(h[k]).value, Parts(h[i]).value);
    }
  }

  /** An agent whose own version cannot be read never updates; nor does any
      agent to a release whose tag cannot be read. */
  lemma UnreadableNeverUpdates(version: string, cs: seq<Check>)
    requires Parts(version).None? ||
             forall i | 0 <= i < |cs| && cs[i].latest.Some? :: Parts(cs[i].latest.value.tag).None?
    ensures forall i | 0 <= i <= |cs| :: History(version, cs)[i] == version
    decreases cs
  {
    if cs != [] {
      assert Updated(version, cs[0]) == version;
      assert forall i | 0 <= i < |cs[1..]| :: cs[1..][i] == cs[i + 1];
      UnreadableNeverUpdates(version, cs[1..]);
    }
  }

  lemma {:induction false} HistorySteps(version: string, cs: seq<Check>, i: nat)
    requires i < |cs|
    ensures History(version, cs)[i + 1] == Updated(History(version, cs)[i], cs[i])
    decreases cs
  {
    var rest := History(Updated(version, cs[0]), cs[1..]);
    assert History(version, cs) == [version] + rest;
    if i > 0 {
      HistorySteps(Updated(version, cs[0]), cs[1..], i - 1);
    }
  }

  /** Over any sequence of checks the version changes at a check exactly if its
      release is newer and every step works - the digests agreeing among them -
      and then to that release. */
  lemma ChangesIff(version: string, cs: seq<Check>, i: nat)
    requires i < |cs|
    ensures var (before, after) := (History(version, cs)[i], History(version, cs)[i + 1]);
            && (after != before <==>
                && cs[i].latest.Some? && Newer(cs[i].latest.value.tag, before)
                && cs[i].latest.value.archive && cs[i].latest.value.sums
                && cs[i].downloaded.Some? && cs[i].listed.Some? && cs[i].downloaded.value == cs[i].listed.value
                && cs[i].unpacks && cs[i].swaps)
            && (after != before ==> after == cs[i].latest.value.tag)
  {
    HistorySteps(version, cs, i);
    var before := History(version, cs)[i];
    if Parts(before).Some? {
      AboveIsIrreflexive(Parts(before).value, Parts(before).value);
    }
  }

  /** An agent keeps up: over any sequence of checks it ends at a version that
      no readable release it could install is above. */
  lemma KeepsUp(version: string, cs: seq<Check>, i: nat)
    requires Parts(version).Some? && i < |cs| && Installable(cs[i]) && Parts(cs[i].latest.value.tag).Some?
    ensures var (last, release) := (Parts(History(version, cs)[|cs|]), Parts(cs[i].latest.value.tag));
            last.Some? && (Above(last.value, release.value) || Equivalent(last.value, release.value))
            && !Above(release.value, last.value)
  {
    var h, tag := History(version, cs), cs[i].latest.value.tag;
    NeverGoesBack(version, cs, 0, i);
    NeverGoesBack(version, cs, i + 1, |cs|);
    HistorySteps(version, cs, i);
    if Newer(tag, h[|cs|]) && h[|cs|] != h[i + 1] {
      NewerIsTransitive(tag, h[|cs|], h[i + 1]);
    }
    if h[i + 1] == tag {
      AboveIsIrreflexive(Parts(tag).value, Parts(tag).value);
    }
    AboveIsTotal(Parts(h[|cs|]).value, Parts(tag).value);
  }
}
