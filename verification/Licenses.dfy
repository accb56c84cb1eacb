/** The license check that decides whether a boot disk may be upgraded. */
module Licenses {
  import opened Text
  import opened UpgradeWorkflows

  const STEM := "projects/windows-cloud/global/licenses/windows-server-"
  const IN_PLACE := "-in-place-upgrade"

  /** The release part of a license name. */
  function Release(v: Version): string {
    match v
    case Windows2008r2 => "2008-r2-dc"
    case Windows2012r2 => "2012-r2-dc"
    case Windows2016 => "2016-dc"
    case Windows2019 => "2019-dc"
    case Windows2022 => "2022-dc"
  }

  function LicenseFor(v: Version): string {
    STEM + Release(v)
  }

  function UpgradedLicenseFor(v: Version): string {
    STEM + Release(v) + IN_PLACE
  }

  /** Version 2008 R2 is no target, so there is no license of a system upgraded to it;
      2022 is no source. */
  function ExpectedLicenses(source: Version): seq<string> {
    match source
    case Windows2008r2 => [LicenseFor(source)]
    case Windows2022 => []
    case _ => [LicenseFor(source), UpgradedLicenseFor(source)]
  }

  predicate Supported(source: Version, target: Version) {
    match source
    case Windows2008r2 => target == Windows2012r2
    case Windows2012r2 => target == Windows2016 || target == Windows2019 || target == Windows2022
    case Windows2016 => target == Windows2019 || target == Windows2022
    case Windows2019 => target == Windows2022
    case Windows2022 => false
  }

  datatype Verdict = Accepted | NoValidLicense | AlreadyUpgraded

  ghost predicate SomeEndsWith(licenses: seq<string>, expected: seq<string>) {
    exists i, j | 0 <= i < |licenses| && 0 <= j < |expected| :: HasSuffix(licenses[i], expected[j])
  }

  ghost predicate OneEndsWith(licenses: seq<string>, suffix: string) {
    exists i | 0 <= i < |licenses| :: HasSuffix(licenses[i], suffix)
  }

  /** The nested loops set two flags, the second one only in the else branch of the first
      test; still the verdict does not depend on the order of anything: a disk is accepted
      if and only if some license ends with an expected one and none with the license that
      the upgrade adds. */
  method ValidateLicense(licenses: seq<string>, source: Version, target: Version) returns (verdict: Verdict)
    requires Supported(source, target)
    ensures verdict == Accepted <==>
      SomeEndsWith(licenses, ExpectedLicenses(source)) && !OneEndsWith(licenses, UpgradedLicenseFor(target))
    ensures verdict == NoValidLicense <==> !SomeEndsWith(licenses, ExpectedLicenses(source))
  {
    var expected, toAdd := ExpectedLicenses(source), UpgradedLicenseFor(target);
    var matchSourceOSVersion, upgraded := false, false;
    for i := 0 to |licenses|
      invariant matchSourceOSVersion <==> SomeEndsWith(licenses[..i], expected)
      invariant upgraded <==> OneEndsWith(licenses[..i], toAdd)
    {
      var lic := licenses[i];
      ghost var before := matchSourceOSVersion;
      ghost var wasUpgraded := upgraded;
      for j := 0 to |expected|
        invariant matchSourceOSVersion <==> before || exists k | 0 <= k < j :: HasSuffix(lic, expected[k])
        invariant upgraded <==> wasUpgraded || (j > 0 && HasSuffix(lic, toAdd))
      {
        if HasSuffix(lic, expected[j]) {
          matchSourceOSVersion := true;
          NotBoth(lic, source, target, j);
        } else if HasSuffix(lic, toAdd) {
          upgraded := true;
        }
      }
      Extend(licenses, i, expected, toAdd);
    }
    assert licenses[..|licenses|] == licenses;
    if !matchSourceOSVersion {
      return NoValidLicense;
    }
    if upgraded {
      return AlreadyUpgraded;
    }
    return Accepted;
  }

  lemma Extend(licenses: seq<string>, i: nat, expected: seq<string>, toAdd: string)
    requires i < |licenses|
    ensures SomeEndsWith(licenses[..i + 1], expected) <==>
      SomeEndsWith(licenses[..i], expected) || exists k | 0 <= k < |expected| :: HasSuffix(licenses[i], expected[k])
    ensures OneEndsWith(licenses[..i + 1], toAdd) <==>
      OneEndsWith(licenses[..i], toAdd) || HasSuffix(licenses[i], toAdd)
  {
    var a, b := licenses[..i], licenses[..i + 1];
    assert forall k | 0 <= k < i :: a[k] == b[k];
    assert b[i] == licenses[i];
    if exists k | 0 <= k < |expected| :: HasSuffix(licenses[i], expected[k]) {
      var k :| 0 <= k < |expected| && HasSuffix(b[i], expected[k]);
      assert SomeEndsWith(b, expected);
    }
    if SomeEndsWith(a, expected) {
      var m, k :| 0 <= m < |a| && 0 <= k < |expected| && HasSuffix(a[m], expected[k]);
      assert HasSuffix(b[m], expected[k]);
    }
    if OneEndsWith(a, toAdd) {
      var m :| 0 <= m < |a| && HasSuffix(a[m], toAdd);
      assert HasSuffix(b[m], toAdd);
    }
  }

  /** Two suffixes of one string agree, counted from the end. */
  lemma SuffixesAgree(s: string, a: string, b: string, k: nat)
    requires HasSuffix(s, a) && HasSuffix(s, b) && k < |a| && k < |b|
    ensures a[|a| - 1 - k] == b[|b| - 1 - k]
  {
    assert s[|s| - |a|..][|a| - 1 - k] == s[|s| - 1 - k];
    assert s[|s| - |b|..][|b| - 1 - k] == s[|s| - 1 - k];
  }

  /** How far from the end an expected license differs from the one the upgrade adds. */
  function DiffersAt(source: Version, target: Version, j: nat): nat {
    if j == 0 then 0
    else if source == Windows2012r2 && target == Windows2022 then |IN_PLACE| + 4
    else |IN_PLACE| + 3
  }

  /** No license ends both with an expected license and with the one that is added. */
  lemma NotBoth(lic: string, source: Version, target: Version, j: nat)
    requires Supported(source, target) && j < |ExpectedLicenses(source)|
    requires HasSuffix(lic, ExpectedLicenses(source)[j])
    ensures !HasSuffix(lic, UpgradedLicenseFor(target))
  {
    var e, t, k := ExpectedLicenses(source)[j], UpgradedLicenseFor(target), DiffersAt(source, target, j);
    LastDiffers(source, target, j);
    if HasSuffix(lic, t) {
      SuffixesAgree(lic, e, t, k);
    }
  }

  lemma LastDiffers(source: Version, target: Version, j: nat)
    requires Supported(source, target) && j < |ExpectedLicenses(source)|
    ensures var e, t, k := ExpectedLicenses(source)[j], UpgradedLicenseFor(target), DiffersAt(source, target, j);
      k < |e| && k < |t| && e[|e| - 1 - k] != t[|t| - 1 - k]
  {
    if j == 0 {
      assert ExpectedLicenses(source)[0] == LicenseFor(source);
      PlainDiffers(source, target);
    } else {
      UpgradedDiffers(source, target);
    }
  }

  lemma UpgradedDiffers(source: Version, target: Version)
    requires Supported(source, target) && source != Windows2008r2
    ensures var e, t, k := UpgradedLicenseFor(source), UpgradedLicenseFor(target), DiffersAt(source, target, 1);
      k < |e| && k < |t| && e[|e| - 1 - k] != t[|t| - 1 - k]
  {
    var m := DiffersAt(source, target, 1) - |IN_PLACE|;
    ReleasesDiffer(source, target);
    FromEnd(STEM, Release(source), IN_PLACE, m);
    FromEnd(STEM, Release(target), IN_PLACE, m);
  }

  /** Only the added license ends in the letter e. */
  lemma PlainDiffers(source: Version, target: Version)
    ensures var e, t := LicenseFor(source), UpgradedLicenseFor(target); e[|e| - 1] != t[|t| - 1]
  {
    FromEnd(STEM, Release(source), "", 0);
    FromEnd(STEM + Release(target), IN_PLACE, "", 0);
    assert STEM + Release(source) + "" == LicenseFor(source);
    assert STEM + Release(target) + IN_PLACE + "" == UpgradedLicenseFor(target);
    assert IN_PLACE[|IN_PLACE| - 1] == 'e';
  }

  /** The year's last digit tells the releases apart, except for 2012 and 2022. */
  lemma ReleasesDiffer(source: Version, target: Version)
    requires Supported(source, target) && source != Windows2008r2
    ensures var m := DiffersAt(source, target, 1) - |IN_PLACE|;
      && 0 <= m < |Release(source)| && m < |Release(target)|
      && Release(source)[|Release(source)| - 1 - m] != Release(target)[|Release(target)| - 1 - m]
  {
  }

  lemma FromEnd(a: string, b: string, c: string, m: nat)
    requires m < |b|
    ensures (a + b + c)[|a + b + c| - 1 - |c| - m] == b[|b| - 1 - m]
  {
  }

  /* Licenses across upgrades. */

  /** The new boot disk carries the licenses of the old one and the added license, so the
      same upgrade is never accepted for it again. */
  lemma UpgradedDiskIsRefused(licenses: seq<string>, source: Version, target: Version)
    requires Supported(source, target)
    ensures OneEndsWith(licenses + [UpgradedLicenseFor(target)], UpgradedLicenseFor(target))
  {
    var all := licenses + [UpgradedLicenseFor(target)];
    assert all[|licenses|] == UpgradedLicenseFor(target);
    SuffixOfItself(UpgradedLicenseFor(target));
  }

  /** After an upgrade from A to B the disk always shows a license expected of B, so any
      supported upgrade from B to C is accepted exactly if C's license is not there yet. */
  lemma UpgradesChain(licenses: seq<string>, a: Version, b: Version, c: Version)
    requires Supported(a, b) && Supported(b, c)
    ensures SomeEndsWith(licenses + [UpgradedLicenseFor(b)], ExpectedLicenses(b))
    ensures OneEndsWith(licenses + [UpgradedLicenseFor(b)], UpgradedLicenseFor(c)) <==>
            OneEndsWith(licenses, UpgradedLicenseFor(c))
  {
    var all := licenses + [UpgradedLicenseFor(b)];
    assert all[|licenses|] == UpgradedLicenseFor(b) == ExpectedLicenses(b)[1];
    SuffixOfItself(UpgradedLicenseFor(b));
    NotBoth(UpgradedLicenseFor(b), b, c, 1);
    assert forall i | 0 <= i < |licenses| :: all[i] == licenses[i];
  }

  lemma SuffixOfItself(s: string)
    ensures HasSuffix(s, s)
  {
    assert s[0..] == s;
  }
}
