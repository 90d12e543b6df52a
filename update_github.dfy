/**
 * Release metadata of the self-updater: the version of a release tag, the
 * comparison of two version strings, and the choice of the download asset
 * for a platform. The operating system and architecture are parameters.
 */
module UpdateGithub {
  import opened Wrappers
  import opened GoStrings

  datatype Asset = Asset(name: string, browserDownloadUrl: string, size: int, contentType: string)

  datatype Release = Release(tagName: string, name: string, body: string, htmlUrl: string, assets: seq<Asset>)

  /** GetVersion: the tag without one leading "v". */
  function GetVersion(release: Release): (v: string)
    ensures HasPrefix(release.tagName, "v") ==> release.tagName == "v" + v
    ensures !HasPrefix(release.tagName, "v") ==> v == release.tagName
  {
    TrimPrefix(release.tagName, "v")
  }

  // ---------------------------------------------------------------- reading a component

  const MinInt64 := -0x8000_0000_0000_0000
  const MaxInt64 := 0x7FFF_FFFF_FFFF_FFFF

  /** The bytes `fmt.Sscanf` skips before a number; a newline stops the scan instead. */
  predicate IsScanSpace(c: char) {
    c == ' ' || c == '\t' || c == '\r' || c == '\U{B}' || c == '\U{C}'
  }

  function SkipScanSpaces(s: string): (r: string)
    ensures |r| <= |s| && r == s[|s| - |r|..]
    ensures |r| > 0 ==> !IsScanSpace(r[0])
    decreases |s|
  {
    if |s| > 0 && IsScanSpace(s[0]) then SkipScanSpaces(s[1..]) else s
  }

  /** The longest run of decimal digits at the start of `s`. */
  function LeadingDigits(s: string): (d: string)
    ensures AllDigits(d) && d <= s
    ensures |d| < |s| ==> !IsDigit(s[|d|])
    decreases |s|
  {
    if |s| > 0 && IsDigit(s[0]) then [s[0]] + LeadingDigits(s[1..]) else ""
  }

  /** The number `fmt.Sscanf` reads from the digits at the start of `rest`, after the sign. */
  function ReadDigits(rest: string, negative: bool): int {
    var d := LeadingDigits(rest);
    if |d| == 0 then 0
    else
      var v: int := DecimalValue(d);
      var n := if negative then -v else v;
      if MinInt64 <= n <= MaxInt64 then n else 0
  }

  function ReadSigned(t: string): int {
    if |t| > 0 && t[0] == '-' then ReadDigits(t[1..], true)
    else if |t| > 0 && t[0] == '+' then ReadDigits(t[1..], false)
    else ReadDigits(t, false)
  }

  /**
   * `fmt.Sscanf(part, "%d", &n)` on a fresh `n`: skip spaces, read an
   * optional sign and the digits that follow; the number when it fits a
   * 64-bit int, and 0 when no number can be read (the scan error leaves `n`
   * untouched).
   */
  function ScanInt(part: string): int {
    ReadSigned(SkipScanSpaces(part))
  }

  /** A component is read as its leading number, whatever follows it. */
  lemma ScanReadsTheLeadingNumber(d: string, rest: string)
    requires |d| > 0 && AllDigits(d) && DecimalValue(d) <= MaxInt64
    requires |rest| == 0 || !IsDigit(rest[0])
    ensures ScanInt(d + rest) == DecimalValue(d)
  {
    var s := d + rest;
    assert s[0] == d[0];
    ScanOfDigitStart(s);
    LeadingDigitsOf(d, rest);
  }

  /** Text that starts with a digit is read from its first byte. */
  lemma ScanOfDigitStart(s: string)
    requires |s| > 0 && IsDigit(s[0])
    ensures ScanInt(s) == ReadDigits(s, false)
  {
    assert SkipScanSpaces(s) == s;
  }

  lemma {:induction false} LeadingDigitsOf(d: string, rest: string)
    requires AllDigits(d)
    requires |rest| == 0 || !IsDigit(rest[0])
    ensures LeadingDigits(d + rest) == d
    decreases |d|
  {
    if |d| > 0 {
      assert (d + rest)[1..] == d[1..] + rest;
      LeadingDigitsOf(d[1..], rest);
    } else {
      assert d + rest == rest;
    }
  }

  /** A component that does not start with a number reads as 0. */
  lemma NoNumberReadsZero(part: string)
    requires |part| == 0 || (!IsDigit(part[0]) && !IsScanSpace(part[0]) && part[0] != '+' && part[0] != '-')
    ensures ScanInt(part) == 0
  {
  }

  // ---------------------------------------------------------------- comparing versions

  function Max(a: int, b: int): int { if a < b then b else a }

  /** The numbers the components of a version are read as. */
  function Components(parts: seq<string>): (ns: seq<int>)
    ensures |ns| == |parts|
  {
    seq(|parts|, i requires 0 <= i < |parts| => ScanInt(parts[i]))
  }

  /** The i-th component of a version, 0 when it is missing. */
  function Component(ns: seq<int>, i: nat): int {
    if i < |ns| then ns[i] else 0
  }

  /** The comparison of the components from `i` on, first difference first. */
  function CompareFrom(ns1: seq<int>, ns2: seq<int>, i: nat): (r: int)
    ensures r == -1 || r == 0 || r == 1
    decreases Max(|ns1|, |ns2|) - i
  {
    if i >= |ns1| && i >= |ns2| then 0
    else
      var n1 := Component(ns1, i);
      var n2 := Component(ns2, i);
      if n1 < n2 then -1
      else if n1 > n2 then 1
      else CompareFrom(ns1, ns2, i + 1)
  }

  /** What CompareVersions returns: -1, 0 or 1 as the first version is older, the same or newer. */
  function VersionOrder(v1: string, v2: string): int {
    var a := TrimPrefix(v1, "v");
    var b := TrimPrefix(v2, "v");
    if a == "dev" then -1
    else if b == "dev" then 1
    else CompareFrom(Components(Split(a, '.')), Components(Split(b, '.')), 0)
  }

  /** CompareVersions: the loop over the components, with its early returns. */
  method CompareVersions(v1: string, v2: string) returns (r: int)
    ensures r == VersionOrder(v1, v2)
    ensures r == -1 || r == 0 || r == 1
  {
    var a := TrimPrefix(v1, "v");
    var b := TrimPrefix(v2, "v");
    if a == "dev" {
      return -1;
    }
    if b == "dev" {
      return 1;
    }
    r := CompareComponents(Split(a, '.'), Split(b, '.'));
  }

  /** The loop of CompareVersions over the components of both versions. */
  method CompareComponents(parts1: seq<string>, parts2: seq<string>) returns (r: int)
    ensures r == CompareFrom(Components(parts1), Components(parts2), 0)
  {
    ghost var ns1, ns2 := Components(parts1), Components(parts2);
    var maxLen := |parts1|;
    if |parts2| > maxLen {
      maxLen := |parts2|;
    }
    var i := 0;
    while i < maxLen
      invariant 0 <= i <= maxLen
      invariant CompareFrom(ns1, ns2, i) == CompareFrom(ns1, ns2, 0)
    {
      ComponentIsScan(parts1, i);
      ComponentIsScan(parts2, i);
      CompareFromUnfold(ns1, ns2, i);
      var n1, n2 := 0, 0;
      if i < |parts1| {
        n1 := ScanInt(parts1[i]);
      }
      if i < |parts2| {
        n2 := ScanInt(parts2[i]);
      }
      if n1 < n2 {
        return -1;
      }
      if n1 > n2 {
        return 1;
      }
      i := i + 1;
    }
    return 0;
  }

  /** The i-th component is the scan of the i-th part, or 0 past the end. */
  lemma ComponentIsScan(parts: seq<string>, i: nat)
    ensures Component(Components(parts), i) == if i < |parts| then ScanInt(parts[i]) else 0
  {
  }

  /** A "dev" first version is always older, even than "dev"; otherwise a "dev" second version is. */
  lemma DevIsOldest(v1: string, v2: string)
    ensures TrimPrefix(v1, "v") == "dev" ==> VersionOrder(v1, v2) == -1
    ensures TrimPrefix(v1, "v") != "dev" && TrimPrefix(v2, "v") == "dev" ==> VersionOrder(v1, v2) == 1
  {
  }

  /** The comparison unfolds the same way past the end of both versions, where both components are 0. */
  lemma CompareFromUnfold(ns1: seq<int>, ns2: seq<int>, i: nat)
    ensures CompareFrom(ns1, ns2, i) ==
            if Component(ns1, i) < Component(ns2, i) then -1
            else if Component(ns1, i) > Component(ns2, i) then 1
            else CompareFrom(ns1, ns2, i + 1)
  {
  }

  /** Components agree up to `k` (from `i` on) and differ at `k`. */
  predicate FirstDifferenceAt(ns1: seq<int>, ns2: seq<int>, i: nat, k: nat) {
    && i <= k
    && (forall j :: i <= j < k ==> Component(ns1, j) == Component(ns2, j))
    && Component(ns1, k) != Component(ns2, k)
  }

  /**
   * The comparison is lexicographic over the components padded with 0s:
   * equal versions agree everywhere, and otherwise the first difference decides.
   */
  lemma {:induction false} CompareFromIsLexicographic(ns1: seq<int>, ns2: seq<int>, i: nat)
    ensures CompareFrom(ns1, ns2, i) == 0 <==>
            forall j :: i <= j ==> Component(ns1, j) == Component(ns2, j)
    ensures CompareFrom(ns1, ns2, i) == -1 <==>
            exists k :: FirstDifferenceAt(ns1, ns2, i, k) && Component(ns1, k) < Component(ns2, k)
    ensures CompareFrom(ns1, ns2, i) == 1 <==>
            exists k :: FirstDifferenceAt(ns1, ns2, i, k) && Component(ns1, k) > Component(ns2, k)
    decreases Max(|ns1|, |ns2|) - i
  {
    var n1 := Component(ns1, i);
    var n2 := Component(ns2, i);
    if i >= |ns1| && i >= |ns2| {
      assert forall j :: i <= j ==> Component(ns1, j) == 0 == Component(ns2, j);
      assert forall k: nat :: !FirstDifferenceAt(ns1, ns2, i, k);
    } else if n1 != n2 {
      assert FirstDifferenceAt(ns1, ns2, i, i);
      assert forall k: nat :: FirstDifferenceAt(ns1, ns2, i, k) ==> k == i;
    } else {
      CompareFromIsLexicographic(ns1, ns2, i + 1);
      forall k: nat | FirstDifferenceAt(ns1, ns2, i, k)
        ensures FirstDifferenceAt(ns1, ns2, i + 1, k)
      {
      }
      forall k: nat | FirstDifferenceAt(ns1, ns2, i + 1, k)
        ensures FirstDifferenceAt(ns1, ns2, i, k)
      {
      }
      assert (forall j :: i <= j ==> Component(ns1, j) == Component(ns2, j)) <==>
             (forall j :: i + 1 <= j ==> Component(ns1, j) == Component(ns2, j));
    }
  }

  /** Swapping the versions flips the answer. */
  lemma {:induction false} CompareFromAntisymmetric(ns1: seq<int>, ns2: seq<int>, i: nat)
    ensures CompareFrom(ns1, ns2, i) == -CompareFrom(ns2, ns1, i)
    decreases Max(|ns1|, |ns2|) - i
  {
    if !(i >= |ns1| && i >= |ns2|) {
      CompareFromAntisymmetric(ns1, ns2, i + 1);
    }
  }

  /** Each version is the same as itself. */
  lemma {:induction false} CompareFromReflexive(ns: seq<int>, i: nat)
    ensures CompareFrom(ns, ns, i) == 0
    decreases |ns| - i
  {
    if i < |ns| {
      CompareFromReflexive(ns, i + 1);
    }
  }

  /** Not newer than a version that is not newer than a third is not newer than the third. */
  lemma {:induction false} CompareFromTransitive(ns1: seq<int>, ns2: seq<int>, ns3: seq<int>, i: nat)
    requires CompareFrom(ns1, ns2, i) <= 0 && CompareFrom(ns2, ns3, i) <= 0
    ensures CompareFrom(ns1, ns3, i) <= 0
    decreases Max(Max(|ns1|, |ns2|), |ns3|) - i
  {
    if !(i >= |ns1| && i >= |ns2| && i >= |ns3|) {
      CompareFromUnfold(ns1, ns2, i);
      CompareFromUnfold(ns2, ns3, i);
      CompareFromUnfold(ns1, ns3, i);
      if Component(ns1, i) == Component(ns2, i) == Component(ns3, i) {
        CompareFromTransitive(ns1, ns2, ns3, i + 1);
      }
    }
  }

  /** Outside "dev", CompareVersions is antisymmetric and reflexive. */
  lemma VersionOrderIsAntisymmetric(v1: string, v2: string)
    requires TrimPrefix(v1, "v") != "dev" && TrimPrefix(v2, "v") != "dev"
    ensures VersionOrder(v1, v2) == -VersionOrder(v2, v1)
    ensures VersionOrder(v1, v1) == 0
  {
    CompareFromAntisymmetric(Components(Split(TrimPrefix(v1, "v"), '.')), Components(Split(TrimPrefix(v2, "v"), '.')), 0);
    CompareFromReflexive(Components(Split(TrimPrefix(v1, "v"), '.')), 0);
  }

  /** Outside "dev", CompareVersions orders versions transitively. */
  lemma VersionOrderIsTransitive(v1: string, v2: string, v3: string)
    requires TrimPrefix(v1, "v") != "dev" && TrimPrefix(v2, "v") != "dev" && TrimPrefix(v3, "v") != "dev"
    requires VersionOrder(v1, v2) <= 0 && VersionOrder(v2, v3) <= 0
    ensures VersionOrder(v1, v3) <= 0
  {
    CompareFromTransitive(Components(Split(TrimPrefix(v1, "v"), '.')), Components(Split(TrimPrefix(v2, "v"), '.')),
                          Components(Split(TrimPrefix(v3, "v"), '.')), 0);
  }

  lemma TrimPrefixOfAppend(v: string, tail: string)
    requires |tail| > 0 && tail[0] != 'v'
    ensures TrimPrefix(v + tail, "v") == TrimPrefix(v, "v") + tail
  {
    if |v| == 0 {
      assert v + tail == tail;
    } else {
      assert (v + tail)[..1] == v[..1];
      assert HasPrefix(v, "v") ==> (v + tail)[1..] == v[1..] + tail;
    }
  }

  /** Versions whose padded components agree compare the same way against anything. */
  lemma SameComponentsCompareAlike(p: seq<int>, q: seq<int>, other: seq<int>)
    requires forall j :: Component(p, j) == Component(q, j)
    ensures CompareFrom(p, other, 0) == CompareFrom(q, other, 0)
  {
    CompareFromIsLexicographic(p, other, 0);
    CompareFromIsLexicographic(q, other, 0);
    forall k: nat | FirstDifferenceAt(p, other, 0, k)
      ensures FirstDifferenceAt(q, other, 0, k)
    {
    }
    forall k: nat | FirstDifferenceAt(q, other, 0, k)
      ensures FirstDifferenceAt(p, other, 0, k)
    {
    }
  }

  /** The text "0" scans as 0. */
  lemma ScanZero()
    ensures ScanInt("0") == 0
  {
    assert SkipScanSpaces("0") == "0";
    assert LeadingDigits("0") == "0" by {
      assert "0"[1..] == "";
    }
  }

  /** Appending ".0" appends a 0 component. */
  lemma ComponentsOfTrailingZero(a: string)
    ensures Components(Split(a + ".0", '.')) == Components(Split(a, '.')) + [0]
  {
    assert a + ".0" == a + ['.'] + "0";
    SplitSuffix(a, "0", '.');
    ComponentsAppend(Split(a, '.'), "0");
    ScanZero();
  }

  lemma ComponentsAppend(parts: seq<string>, x: string)
    ensures Components(parts + [x]) == Components(parts) + [ScanInt(x)]
  {
    var c := Components(parts + [x]);
    forall i | 0 <= i < |parts|
      ensures c[i] == Components(parts)[i]
    {
      assert (parts + [x])[i] == parts[i];
    }
  }

  /** A missing component counts as 0: appending ".0" does not change any comparison. */
  lemma TrailingZeroIsIgnored(v: string, other: string)
    requires TrimPrefix(v, "v") != "dev"
    ensures VersionOrder(v + ".0", other) == VersionOrder(v, other)
  {
    var a := TrimPrefix(v, "v");
    TrimPrefixOfAppend(v, ".0");
    assert a + ".0" != "dev" by {
      assert (a + ".0")[|a| + 1] == '0';
    }
    ComponentsOfTrailingZero(a);
    var p := Components(Split(a, '.'));
    assert forall j: nat :: Component(p + [0], j) == Component(p, j);
    var b := TrimPrefix(other, "v");
    if b != "dev" {
      SameComponentsCompareAlike(p + [0], p, Components(Split(b, '.')));
    }
  }

  // ---------------------------------------------------------------- choosing the asset

  const KnownArchs := {"amd64", "arm64", "386"}

  function AssetPatterns(goos: string, arch: string): seq<string> {
    ["momorph-cli_" + goos + "_" + arch, "mm_" + goos + "_" + arch]
  }

  /** The asset's name contains one of the platform's patterns, ignoring case. */
  predicate MatchesPlatform(asset: Asset, goos: string, arch: string) {
    exists q :: 0 <= q < |AssetPatterns(goos, arch)| &&
      Contains(ToLower(asset.name), ToLower(AssetPatterns(goos, arch)[q]))
  }

  /**
   * GetAssetForPlatform: the first asset, in list order, whose name matches
   * the platform; an error for an unknown architecture or when none matches.
   */
  method GetAssetForPlatform(release: Release, goos: string, goarch: string) returns (r: Result<Asset>)
    ensures goarch !in KnownArchs ==> r == Err("unsupported architecture: " + goarch)
    ensures goarch in KnownArchs ==>
              (r.Ok? <==> exists i :: 0 <= i < |release.assets| && MatchesPlatform(release.assets[i], goos, goarch))
    ensures goarch in KnownArchs && r.Err? ==> r.error == "no release asset found for " + goos + "/" + goarch
    ensures r.Ok? ==> exists i :: 0 <= i < |release.assets| && release.assets[i] == r.value
                                  && MatchesPlatform(release.assets[i], goos, goarch)
                                  && forall k :: 0 <= k < i ==> !MatchesPlatform(release.assets[k], goos, goarch)
  {
    if goarch !in KnownArchs {
      return Err("unsupported architecture: " + goarch);
    }
    var patterns := AssetPatterns(goos, goarch);
    for i := 0 to |release.assets|
      invariant forall k :: 0 <= k < i ==> !MatchesPlatform(release.assets[k], goos, goarch)
    {
      var asset := release.assets[i];
      for j := 0 to |patterns|
        invariant forall q :: 0 <= q < j ==> !Contains(ToLower(asset.name), ToLower(patterns[q]))
      {
        if Contains(ToLower(asset.name), ToLower(patterns[j])) {
          return Ok(asset);
        }
      }
    }
    return Err("no release asset found for " + goos + "/" + goarch);
  }
}
