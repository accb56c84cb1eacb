/** OS releases: built from components, compared, and printed. */
module Releases {
  import opened Text

  const CENTOS := "centos"
  const DEBIAN := "debian"
  const OPENSUSE := "opensuse"
  const RHEL := "rhel"
  const ROCKY := "rocky"
  const SLES := "sles"
  const SLES_SAP := "sles-sap"
  const UBUNTU := "ubuntu"
  const WINDOWS := "windows"
  const X86 := "x86"
  const X64 := "x64"
  const R2 := "r2"

  datatype Release =
    | CommonLinux(distro: string, major: int, minor: int)
    | Sles(variant: string, major: int, minor: int)
    | Ubuntu(major: int, minor: int)
    | Windows(version: string, edition: string, architecture: string)

  /* Construction. */

  function LowerChar(c: char): char {
    if 'A' <= c <= 'Z' then (c as int + 32) as char else c
  }

  function ToLower(s: string): (r: string)
    ensures |r| == |s|
  {
    seq(|s|, i requires 0 <= i < |s| => LowerChar(s[i]))
  }

  function UnderscoresToHyphens(s: string): string {
    seq(|s|, i requires 0 <= i < |s| => if s[i] == '_' then '-' else s[i])
  }

  function StandardizeArchitecture(architecture: string): Result<string> {
    var lowered := ToLower(architecture);
    if architecture == "" then Ok("")
    else if lowered in [X86, "amd64", "x86_64"] then Ok(X86)
    else if lowered in [X64, "i386", "i686", "x86_32"] then Ok(X64)
    else Err("architecture")
  }

  const KNOWN: seq<string> := [CENTOS, DEBIAN, OPENSUSE, RHEL, ROCKY, SLES_SAP, SLES, UBUNTU, WINDOWS]

  const COMMON: seq<string> := [CENTOS, DEBIAN, OPENSUSE, RHEL, ROCKY]

  /** The first known distro whose name occurs in `d`. */
  function FirstKnown(d: string, known: seq<string>): Result<string> {
    if known == [] then Err("distro")
    else if Contains(d, known[0]) then Ok(known[0])
    else FirstKnown(d, known[1..])
  }

  function StandardizeDistro(distro: string): Result<string> {
    if distro == "" then Err("no distro")
    else FirstKnown(UnderscoresToHyphens(ToLower(distro)), KNOWN)
  }

  function NewLinuxRelease(distro: string, major: string, minor: string): Result<Release> {
    var majorInt := Atoi(major);
    var minorInt := if minor == "" then Some(0) else Atoi(minor);
    if majorInt.None? || majorInt.value < 1 then Err("major")
    else if minorInt.None? || minorInt.value < 0 then Err("minor")
    else if distro == UBUNTU then
      if minorInt.value == 4 || minorInt.value == 10 then Ok(Ubuntu(majorInt.value, minorInt.value))
      else Err("not importable")
    else if distro in COMMON then Ok(CommonLinux(distro, majorInt.value, minorInt.value))
    else if distro == SLES_SAP then Ok(Sles("sap", majorInt.value, minorInt.value))
    else if distro == SLES then Ok(Sles("", majorInt.value, minorInt.value))
    else Err("distro")
  }

  function NewWindowsRelease(major: string, minor: string, architecture: string): Result<Release> {
    if major != "" && AllDigits(major) then Ok(Windows(major, minor, architecture)) else Err("major")
  }

  function FromComponents(distro: string, major: string, minor: string, architecture: string): Result<Release> {
    match StandardizeArchitecture(architecture)
    case Err(e) => Err(e)
    case Ok(arch) =>
      match StandardizeDistro(distro)
      case Err(e) => Err(e)
      case Ok(standard) =>
        if standard == WINDOWS then NewWindowsRelease(major, minor, arch) else NewLinuxRelease(standard, major, minor)
  }

  /** What every release that FromComponents builds looks like. */
  predicate Valid(r: Release) {
    match r
    case CommonLinux(distro, major, minor) => distro in COMMON && 1 <= major <= INT64_MAX && minor >= 0
    case Sles(variant, major, minor) => variant in ["", "sap"] && 1 <= major <= INT64_MAX && minor >= 0
    case Ubuntu(major, minor) => 1 <= major <= INT64_MAX && minor in {4, 10}
    case Windows(version, _, architecture) => version != "" && AllDigits(version) && architecture in ["", X86, X64]
  }

  lemma AtoiIsBounded(s: string)
    ensures Atoi(s).Some? ==> Atoi(s).value <= INT64_MAX
  {
  }

  lemma BuiltReleasesAreValid(distro: string, major: string, minor: string, architecture: string)
    ensures var r := FromComponents(distro, major, minor, architecture); r.Ok? ==> Valid(r.value)
  {
    var standard := StandardizeDistro(distro);
    if standard.Ok? {
      BuiltLinuxIsValid(standard.value, major, minor);
    }
  }

  lemma BuiltLinuxIsValid(distro: string, major: string, minor: string)
    ensures var r := NewLinuxRelease(distro, major, minor); r.Ok? ==> Valid(r.value)
  {
    AtoiIsBounded(major);
  }

  /* Comparison. */

  predicate ImportCompatible(r: Release, other: Release) {
    match (r, other)
    case (CommonLinux(d, m, _), CommonLinux(d', m', _)) => d == d' && m == m'
    case (Sles(v, m, _), Sles(v', m', _)) => v == v' && m == m'
    case (Ubuntu(m, n), Ubuntu(m', n')) => m == m' && n == n'
    case (Windows(v, e, a), Windows(v', e', a')) =>
      v == v' && a == a' && (e == R2 || e' == R2 ==> e == e')
    case _ => false
  }

  /* Printing. */

  /** The format %02d of the two minor versions that exist. */
  function TwoDigits(minor: int): string {
    if 0 <= minor < 10 then "0" + Dec(minor) else if minor >= 10 then Dec(minor) else "-" + Dec(-minor)
  }

  function PrintInt(n: int): string {
    if n >= 0 then Dec(n) else "-" + Dec(-n)
  }

  function AsGcloudArg(r: Release): string {
    match r
    case CommonLinux(distro, major, _) => distro + "-" + PrintInt(major)
    case Sles(variant, major, _) =>
      if variant != "" then "sles-" + variant + "-" + PrintInt(major) else "sles-" + PrintInt(major)
    case Ubuntu(major, minor) => "ubuntu-" + PrintInt(major) + TwoDigits(minor)
    case Windows(version, edition, architecture) =>
      "windows-" + version + (if edition == R2 then R2 else "")
      + if architecture != "" && |version| <= 2 then "-" + architecture else ""
  }

  /** Compatibility is an equivalence over all kinds of releases together, and compatible
      releases print the same. */
  lemma CompatibilityIsAnEquivalence(a: Release, b: Release, c: Release)
    ensures ImportCompatible(a, a)
    ensures ImportCompatible(a, b) <==> ImportCompatible(b, a)
    ensures ImportCompatible(a, b) && ImportCompatible(b, c) ==> ImportCompatible(a, c)
    ensures ImportCompatible(a, b) ==> AsGcloudArg(a) == AsGcloudArg(b)
  {
  }
}
