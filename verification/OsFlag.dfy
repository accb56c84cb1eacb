/** The value of the --os flag: the pattern, the parser, and its round trip with printing. */
module OsFlag {
  import opened Text
  import opened Releases

  datatype Match = Match(distro: string, version: string, arch: string, license: string)

  const LEGACY := "windows-8-1-x64-byol"
  const LEGACY_REPLACEMENT := "windows-8-x64-byol"
  const BYOL := "byol"

  predicate IsLetter(c: char) {
    'a' <= c <= 'z'
  }

  predicate IsWord(c: char) {
    IsLetter(c) || IsDigit(c)
  }

  /** One or more letters. */
  predicate Letters(s: string) {
    s != "" && forall i | 0 <= i < |s| :: IsLetter(s[i])
  }

  /** One or more letters and digits. */
  predicate Words(s: string) {
    s != "" && forall i | 0 <= i < |s| :: IsWord(s[i])
  }

  /** The hyphen-separated segments of a match. */
  function Segments(head: seq<string>, version: string, arch: string, license: string): seq<string> {
    head + [version] + (if arch != "" then [arch] else []) + (if license != "" then [license] else [])
  }

  /** What the pattern means: one or two words of letters for the distro, a version of
      letters and digits, then optionally an architecture, then optionally the license. */
  ghost predicate Matches(s: string, head: seq<string>, version: string, arch: string, license: string) {
    && (|head| == 1 || |head| == 2) && (forall h | h in head :: Letters(h))
    && Words(version)
    && arch in ["", X86, X64] && license in ["", BYOL]
    && s == Join(Segments(head, version, arch, license), '-')
  }

  /** One way to read the segments: with a distro of `h` segments, with or without an
      architecture and a license. */
  function Read(t: seq<string>, h: nat, withArch: bool, withLicense: bool): Option<Match>
    requires h == 1 || h == 2
  {
    if |t| != h + 1 + (if withArch then 1 else 0) + (if withLicense then 1 else 0) then None
    else
      var arch := if withArch then t[h + 1] else "";
      var license := if withLicense then t[|t| - 1] else "";
      if Letters(t[0]) && (h == 2 ==> Letters(t[1])) && Words(t[h])
         && (withArch ==> arch == X86 || arch == X64) && (withLicense ==> license == BYOL)
      then Some(Match(if h == 2 then t[0] + "-" + t[1] else t[0], t[h], arch, license))
      else None
  }

  function Or(a: Option<Match>, b: Option<Match>): Option<Match> {
    if a.Some? then a else b
  }

  /** The expression prefers, from left to right, to match each optional part. */
  function FindSubmatch(s: string): Option<Match> {
    var t := Split(s, '-');
    Or(Read(t, 2, true, true), Or(Read(t, 2, true, false), Or(Read(t, 2, false, true), Or(Read(t, 2, false, false),
    Or(Read(t, 1, true, true), Or(Read(t, 1, true, false), Or(Read(t, 1, false, true), Read(t, 1, false, false))))))))
  }

  function FromGcloudOSArgument(osFlagValue: string): Result<Release> {
    var value := if osFlagValue == LEGACY then LEGACY_REPLACEMENT else osFlagValue;
    match FindSubmatch(ToLower(value))
    case None => Err("pattern")
    case Some(m) =>
      if m.distro == UBUNTU then
        if |m.version| != 4 then Err("length")
        else FromComponents(m.distro, m.version[..2], m.version[2..], m.arch)
      else if m.distro == WINDOWS && HasSuffix(m.version, R2) then
        FromComponents(m.distro, m.version[..|m.version| - 2], R2, m.arch)
      else FromComponents(m.distro, m.version, "", m.arch)
  }

  lemma WordsAreFree(s: string)
    requires Letters(s) || Words(s) || s == X86 || s == X64 || s == BYOL
    ensures Free(s, '-')
  {
    assert forall i | 0 <= i < |s| :: s[i] != '-';
  }

  lemma SegmentsAreFree(head: seq<string>, version: string, arch: string, license: string)
    requires forall h | h in head :: Letters(h)
    requires Words(version) && arch in ["", X86, X64] && license in ["", BYOL]
    ensures AllFree(Segments(head, version, arch, license), '-')
  {
    forall p | p in Segments(head, version, arch, license)
      ensures Free(p, '-')
    {
      WordsAreFree(p);
    }
  }

  /** The parser accepts exactly the strings of the pattern. */
  lemma ParserAcceptsThePattern(s: string)
    ensures FindSubmatch(s).Some? <==> exists head, version, arch, license :: Matches(s, head, version, arch, license)
    ensures FindSubmatch(s).Some? ==> exists head ::
      var m := FindSubmatch(s).value;
      m.distro == Join(head, '-') && Matches(s, head, m.version, m.arch, m.license)
  {
    var t := Split(s, '-');
    JoinSplit(s, '-');
    if FindSubmatch(s).Some? {
      var h: nat, wa, wl :| (h == 1 || h == 2) && Read(t, h, wa, wl) == FindSubmatch(s);
      ReadMatches(s, h, wa, wl);
    }
    if head, version, arch, license :| Matches(s, head, version, arch, license) {
      MatchesRead(s, head, version, arch, license);
    }
  }

  lemma ReadMatches(s: string, h: nat, withArch: bool, withLicense: bool)
    requires (h == 1 || h == 2) && Read(Split(s, '-'), h, withArch, withLicense).Some?
    ensures var m := Read(Split(s, '-'), h, withArch, withLicense).value;
      var head := Split(s, '-')[..h];
      m.distro == Join(head, '-') && Matches(s, head, m.version, m.arch, m.license)
  {
    var t := Split(s, '-');
    ReadSegments(t, h, withArch, withLicense);
    JoinSplit(s, '-');
  }

  lemma ReadSegments(t: seq<string>, h: nat, withArch: bool, withLicense: bool)
    requires (h == 1 || h == 2) && Read(t, h, withArch, withLicense).Some?
    ensures var m := Read(t, h, withArch, withLicense).value;
      && |t| > h && t == Segments(t[..h], m.version, m.arch, m.license)
      && m.distro == Join(t[..h], '-')
      && (forall k | k in t[..h] :: Letters(k))
      && Words(m.version) && m.arch in ["", X86, X64] && m.license in ["", BYOL]
  {
    var m := Read(t, h, withArch, withLicense).value;
    ReadTail(t[h + 1..], withArch, withLicense, m.arch, m.license);
    assert t == t[..h] + [t[h]] + t[h + 1..];
    ReadDistro(t, h);
  }

  lemma ReadTail(tail: seq<string>, withArch: bool, withLicense: bool, arch: string, license: string)
    requires |tail| == (if withArch then 1 else 0) + (if withLicense then 1 else 0)
    requires if withArch then arch == tail[0] && arch in [X86, X64] else arch == ""
    requires if withLicense then license == tail[|tail| - 1] && license == BYOL else license == ""
    ensures tail == (if arch != "" then [arch] else []) + (if license != "" then [license] else [])
  {
  }

  lemma ReadDistro(t: seq<string>, h: nat)
    requires (h == 1 || h == 2) && |t| > h
    ensures Join(t[..h], '-') == if h == 2 then t[0] + "-" + t[1] else t[0]
    ensures forall k :: k in t[..h] <==> k == t[0] || (h == 2 && k == t[1])
  {
    if h == 2 {
      assert t[..2] == [t[0], t[1]] && [t[0], t[1]][1..] == [t[1]];
    } else {
      assert t[..1] == [t[0]];
    }
  }

  lemma MatchesRead(s: string, head: seq<string>, version: string, arch: string, license: string)
    requires Matches(s, head, version, arch, license)
    ensures Read(Split(s, '-'), |head|, arch != "", license != "").Some?
    ensures FindSubmatch(s).Some?
  {
    var t := Segments(head, version, arch, license);
    SegmentsAreFree(head, version, arch, license);
    SplitJoin(t, '-');
  }

  /* Printed values. */

  /** On a value whose version starts with a digit, the pattern has one reading. */
  lemma OneReading(s: string, head: seq<string>, version: string, arch: string)
    requires Matches(s, head, version, arch, "") && IsDigit(version[0])
    ensures FindSubmatch(s) == Some(Match(Join(head, '-'), version, arch, ""))
  {
    var t := Segments(head, version, arch, "");
    SegmentsAreFree(head, version, arch, "");
    SplitJoin(t, '-');
    assert Read(t, |head|, arch != "", false).Some? by {
      MatchesRead(s, head, version, arch, "");
    }
    if |head| == 2 {
      assert head[1..] == [head[1]];
    }
    assert !Letters(version);
  }

  /** That reading is the only one: the pattern is unambiguous on such values. */
  lemma NoOtherReading(s: string, head: seq<string>, version: string, arch: string,
                       head': seq<string>, version': string, arch': string, license': string)
    requires Matches(s, head, version, arch, "") && IsDigit(version[0])
    requires Matches(s, head', version', arch', license')
    ensures head' == head && version' == version && arch' == arch && license' == ""
  {
    var t, t' := Segments(head, version, arch, ""), Segments(head', version', arch', license');
    SegmentsAreFree(head, version, arch, "");
    SegmentsAreFree(head', version', arch', license');
    SplitJoin(t, '-');
    SplitJoin(t', '-');
    assert t == t';
    assert !Letters(version) && version != X86 && version != X64 && version != BYOL;
    assert t[|head|] == version && t'[|head'|] == version';
    assert |head'| == 2 ==> Letters(t'[1]);
    assert |head'| == 1 && |t'| >= 3 ==> t'[2] in [X86, X64, BYOL];
    assert head == t[..|head|] && head' == t'[..|head'|];
    assert |BYOL| != |X86| && |BYOL| != |X64|;
    assert arch != "" ==> t[|head| + 1] == arch;
    assert t'[|head'|..] ==
      [version'] + (if arch' != "" then [arch'] else []) + (if license' != "" then [license'] else []);
  }

  /* Distro names are their own standard form. */

  lemma ContainedChars(s: string, sub: string)
    ensures Contains(s, sub) ==> forall c | c in sub :: c in s
  {
    if i :| 0 <= i <= |s| && sub <= s[i..] {
      forall c | c in sub
        ensures c in s
      {
        var k :| 0 <= k < |sub| && sub[k] == c;
        assert s[i + k] == s[i..][k] == c;
      }
    }
  }

  lemma CharOutside(s: string, sub: string, c: char)
    requires c in sub && c !in s
    ensures !Contains(s, sub)
  {
    ContainedChars(s, sub);
  }

  lemma ContainsItself(s: string)
    ensures Contains(s, s)
  {
    assert s[0..] == s;
  }

  predicate NoUpper(s: string) {
    forall i | 0 <= i < |s| :: !('A' <= s[i] <= 'Z')
  }

  lemma LowerIsLower(s: string)
    requires NoUpper(s)
    ensures ToLower(s) == s
  {
  }

  /** Telling characters: one that the first name has and the second lacks. */
  function Telling(known: string, k: string): char {
    if known == CENTOS then (if k == ROCKY then 't' else 'c')
    else if known == DEBIAN then (if k == WINDOWS then 'b' else 'd')
    else if known == OPENSUSE then (if k == SLES_SAP then 'n' else 'p')
    else if known == RHEL then 'h'
    else if known == ROCKY then 'y'
    else if known == SLES_SAP then '-'
    else if known == SLES then 'l'
    else 'u'
  }

  lemma EarlierNamesAreOutside(i: nat, j: nat)
    requires i < j < |KNOWN|
    ensures !Contains(KNOWN[j], KNOWN[i])
  {
    var known, k := KNOWN[i], KNOWN[j];
    TellingTells(i, j);
    CharOutside(k, known, Telling(known, k));
  }

  lemma TellingTells(i: nat, j: nat)
    requires i < j < |KNOWN|
    ensures Telling(KNOWN[i], KNOWN[j]) in KNOWN[i] && Telling(KNOWN[i], KNOWN[j]) !in KNOWN[j]
  {
    assert CENTOS[0] == 'c' && CENTOS[3] == 't' && DEBIAN[0] == 'd' && DEBIAN[2] == 'b';
    assert OPENSUSE[1] == 'p' && OPENSUSE[3] == 'n' && RHEL[1] == 'h' && ROCKY[4] == 'y';
    assert SLES_SAP[4] == '-' && SLES[1] == 'l' && UBUNTU[0] == 'u';
  }

  lemma {:induction false} FirstKnownFinds(i: nat, j: nat)
    requires i <= j < |KNOWN|
    ensures FirstKnown(KNOWN[j], KNOWN[i..]) == Ok(KNOWN[j])
    decreases j - i
  {
    assert KNOWN[i..][0] == KNOWN[i] && KNOWN[i..][1..] == KNOWN[i + 1..];
    if i == j {
      ContainsItself(KNOWN[j]);
    } else {
      EarlierNamesAreOutside(i, j);
      FirstKnownFinds(i + 1, j);
    }
  }

  lemma StandardIsStandard(k: string)
    requires k in KNOWN
    ensures StandardizeDistro(k) == Ok(k)
  {
    var j :| 0 <= j < |KNOWN| && KNOWN[j] == k;
    LowerIsLower(k);
    assert UnderscoresToHyphens(k) == k;
    FirstKnownFinds(0, j);
    assert KNOWN[0..] == KNOWN;
  }

  /* The round trip. */

  function PrintedHead(r: Release): seq<string> {
    match r
    case CommonLinux(distro, _, _) => [distro]
    case Sles(variant, _, _) => if variant != "" then ["sles", variant] else ["sles"]
    case Ubuntu(_, _) => [UBUNTU]
    case Windows(_, _, _) => [WINDOWS]
  }

  function PrintedVersion(r: Release): string
    requires Valid(r)
  {
    match r
    case CommonLinux(_, major, _) => Dec(major)
    case Sles(_, major, _) => Dec(major)
    case Ubuntu(major, minor) => Dec(major) + TwoDigits(minor)
    case Windows(version, edition, _) => version + (if edition == R2 then R2 else "")
  }

  function PrintedArch(r: Release): string {
    if r.Windows? && |r.version| <= 2 then r.architecture else ""
  }

  lemma JoinWithoutArch(head: seq<string>, version: string)
    requires head != []
    ensures Join(Segments(head, version, "", ""), '-') == Join(head, '-') + ['-'] + version
  {
    assert Segments(head, version, "", "") == head + [version];
    JoinConcat(head, [version], '-');
  }

  lemma JoinWithArch(head: seq<string>, version: string, arch: string)
    requires head != [] && arch != ""
    ensures Join(Segments(head, version, arch, ""), '-') == Join(head, '-') + ['-'] + version + ['-'] + arch
  {
    assert Segments(head, version, arch, "") == (head + [version]) + [arch];
    JoinConcat(head + [version], [arch], '-');
    JoinConcat(head, [version], '-');
  }

  lemma JoinHead(r: Release)
    ensures Join(PrintedHead(r), '-') ==
      match r
      case CommonLinux(distro, _, _) => distro
      case Sles(variant, _, _) => if variant != "" then "sles" + ['-'] + variant else "sles"
      case Ubuntu(_, _) => UBUNTU
      case Windows(_, _, _) => WINDOWS
  {
    if r.Sles? && r.variant != "" {
      JoinConcat(["sles"], [r.variant], '-');
      assert PrintedHead(r) == ["sles"] + [r.variant];
    }
  }

  /** The printed value is the head, a hyphen, the version and, if any, the architecture. */
  lemma PrintedShape(r: Release)
    requires Valid(r)
    ensures AsGcloudArg(r) == Join(Segments(PrintedHead(r), PrintedVersion(r), PrintedArch(r), ""), '-')
  {
    var head, version, arch := PrintedHead(r), PrintedVersion(r), PrintedArch(r);
    JoinHead(r);
    if arch != "" {
      JoinWithArch(head, version, arch);
      assert AsGcloudArg(r) == WINDOWS + ['-'] + version + ['-'] + arch by {
        assert "windows-" == WINDOWS + ['-'];
        assert "-" + arch == ['-'] + arch;
      }
    } else {
      JoinWithoutArch(head, version);
      ShapeWithoutArch(r);
    }
  }

  lemma ShapeWithoutArch(r: Release)
    requires Valid(r) && PrintedArch(r) == ""
    ensures AsGcloudArg(r) == Join(PrintedHead(r), '-') + ['-'] + PrintedVersion(r)
  {
    JoinHead(r);
    match r {
      case CommonLinux(distro, major, _) =>
        assert distro + "-" + PrintInt(major) == distro + ['-'] + Dec(major);
      case Sles(variant, major, _) =>
        assert "sles-" == "sles" + ['-'];
        assert "sles-" + variant + "-" + Dec(major) == "sles" + ['-'] + variant + ['-'] + Dec(major);
      case Ubuntu(major, minor) =>
        assert "ubuntu-" == UBUNTU + ['-'];
        assert "ubuntu-" + Dec(major) + TwoDigits(minor) == UBUNTU + ['-'] + (Dec(major) + TwoDigits(minor));
      case Windows(version, edition, _) =>
        assert "windows-" == WINDOWS + ['-'];
        var suffix := if edition == R2 then R2 else "";
        assert "windows-" + version + suffix + "" == WINDOWS + ['-'] + (version + suffix);
    }
  }

  lemma VersionParts(a: string, b: string)
    requires a != "" && AllDigits(a) && (AllDigits(b) || b == R2)
    ensures Words(a + b) && NoUpper(a + b) && IsDigit((a + b)[0]) && IsDigit((a + b)[|a + b| - 1])
  {
  }

  lemma PrintedVersionParts(r: Release)
    requires Valid(r)
    ensures Words(PrintedVersion(r)) && NoUpper(PrintedVersion(r)) && IsDigit(PrintedVersion(r)[0])
    ensures IsDigit(PrintedVersion(r)[|PrintedVersion(r)| - 1])
  {
    match r {
      case Windows(version, edition, _) => VersionParts(version, if edition == R2 then R2 else "");
      case Ubuntu(major, minor) =>
        DecValDec(major);
        DecValDec(minor);
        VersionParts(Dec(major), TwoDigits(minor));
      case _ =>
        DecValDec(r.major);
        VersionParts(Dec(r.major), "");
        assert Dec(r.major) + "" == Dec(r.major);
    }
  }

  lemma PrintedHeadParts(r: Release)
    requires Valid(r)
    ensures forall h | h in PrintedHead(r) :: Letters(h) && NoUpper(h)
    ensures PrintedArch(r) in ["", X86, X64]
  {
  }

  lemma PrintedMatches(r: Release)
    requires Valid(r)
    ensures Matches(AsGcloudArg(r), PrintedHead(r), PrintedVersion(r), PrintedArch(r), "")
    ensures IsDigit(PrintedVersion(r)[0])
  {
    PrintedShape(r);
    PrintedVersionParts(r);
    PrintedHeadParts(r);
  }

  lemma PrintedIsLower(r: Release)
    requires Valid(r)
    ensures NoUpper(AsGcloudArg(r)) && AsGcloudArg(r) != LEGACY
  {
    PrintedShape(r);
    PrintedVersionParts(r);
    PrintedHeadParts(r);
    JoinedIsLower(PrintedHead(r), PrintedVersion(r), PrintedArch(r));
  }

  lemma JoinedIsLower(head: seq<string>, version: string, arch: string)
    requires 1 <= |head| <= 2 && (forall h | h in head :: NoUpper(h)) && arch in ["", X86, X64]
    requires version != "" && NoUpper(version) && IsDigit(version[|version| - 1])
    ensures var s := Join(Segments(head, version, arch, ""), '-'); NoUpper(s) && s != LEGACY
  {
    JoinNoUpper(head);
    var start := Join(head, '-') + ['-'];
    if arch != "" {
      JoinWithArch(head, version, arch);
      EndsInDigit(start + version + ['-'], arch);
    } else {
      JoinWithoutArch(head, version);
      EndsInDigit(start, version);
    }
  }

  lemma JoinNoUpper(head: seq<string>)
    requires 1 <= |head| <= 2 && forall h | h in head :: NoUpper(h)
    ensures NoUpper(Join(head, '-'))
  {
    assert head[0] in head && head[|head| - 1] in head;
    if |head| == 2 {
      assert head[1..] == [head[1]];
      NoUpperConcat(head[0], ['-']);
      NoUpperConcat(head[0] + ['-'], head[1]);
    }
  }

  lemma NoUpperConcat(a: string, b: string)
    requires NoUpper(a) && NoUpper(b)
    ensures NoUpper(a + b)
  {
  }

  lemma EndsInDigit(start: string, end: string)
    requires NoUpper(start) && NoUpper(end) && end != "" && IsDigit(end[|end| - 1])
    ensures NoUpper(start + end) && start + end != LEGACY
  {
    assert IsDigit((start + end)[|start + end| - 1]);
    assert LEGACY[|LEGACY| - 1] == 'l';
  }

  /** What the flag can express of a release: two-digit Ubuntu versions, and no architecture
      of a Windows version of more than two digits. */
  predicate Expressible(r: Release) {
    match r
    case Ubuntu(major, _) => 10 <= major <= 99
    case Windows(version, _, architecture) => |version| <= 2 || architecture == ""
    case _ => true
  }

  lemma DecLength(n: nat)
    ensures |Dec(n)| == 2 <==> 10 <= n <= 99
  {
    if n >= 100 {
      assert Dec(n / 10) == Dec(n / 100) + [DigitChar((n / 10) % 10)];
    }
  }

  lemma TwoDigitsParse(minor: int)
    requires minor in {4, 10}
    ensures |TwoDigits(minor)| == 2 && Atoi(TwoDigits(minor)) == Some(minor)
  {
    if minor == 4 {
      assert TwoDigits(4) == "04";
      assert DecVal("04"[..1]) == 0 by { assert "04"[..1] == "0" && "0"[..0] == ""; }
      assert DecVal("04") == 4;
    } else {
      AtoiDec(10);
      assert Dec(10) == "10";
    }
  }

  lemma StandardArchitecture(a: string)
    requires a in ["", X86, X64]
    ensures StandardizeArchitecture(a) == Ok(a)
  {
    LowerIsLower(a);
    assert |X86| == 3 && X86[1] == '8' && X64[1] == '6';
  }

  /** What parsing a printed value comes to. */
  lemma ParsePrinted(r: Release)
    requires Valid(r)
    ensures var m := Match(Join(PrintedHead(r), '-'), PrintedVersion(r), PrintedArch(r), "");
      && FindSubmatch(ToLower(AsGcloudArg(r))) == Some(m)
      && AsGcloudArg(r) != LEGACY
  {
    PrintedMatches(r);
    PrintedIsLower(r);
    LowerIsLower(AsGcloudArg(r));
    OneReading(AsGcloudArg(r), PrintedHead(r), PrintedVersion(r), PrintedArch(r));
  }

  lemma LinuxComponents(distro: string, major: nat)
    requires distro in KNOWN && distro != WINDOWS && distro != UBUNTU && 1 <= major <= INT64_MAX
    ensures FromComponents(distro, Dec(major), "", "") ==
      Ok(if distro == SLES then Sles("", major, 0) else if distro == SLES_SAP then Sles("sap", major, 0)
         else CommonLinux(distro, major, 0))
  {
    AtoiDec(major);
    StandardArchitecture("");
    StandardIsStandard(distro);
    NamesDiffer();
  }

  lemma CommonLinuxRoundTrip(r: Release)
    requires Valid(r) && r.CommonLinux?
    ensures FromGcloudOSArgument(AsGcloudArg(r)) == Ok(CommonLinux(r.distro, r.major, 0))
  {
    ParsePrinted(r);
    JoinHead(r);
    NamesDiffer();
    LinuxComponents(r.distro, r.major);
  }

  lemma SlesHead(r: Release)
    requires Valid(r) && r.Sles?
    ensures Join(PrintedHead(r), '-') == if r.variant == "" then SLES else SLES_SAP
  {
    JoinHead(r);
    assert "sles" + ['-'] + "sap" == SLES_SAP;
  }

  lemma SlesRoundTrip(r: Release)
    requires Valid(r) && r.Sles?
    ensures FromGcloudOSArgument(AsGcloudArg(r)) == Ok(Sles(r.variant, r.major, 0))
  {
    ParsePrinted(r);
    SlesHead(r);
    NamesDiffer();
    LinuxComponents(if r.variant == "" then SLES else SLES_SAP, r.major);
  }

  lemma NamesDiffer()
    ensures UBUNTU !in [CENTOS, DEBIAN, OPENSUSE, RHEL, ROCKY, SLES, SLES_SAP]
    ensures WINDOWS !in [CENTOS, DEBIAN, OPENSUSE, RHEL, ROCKY, SLES, SLES_SAP, UBUNTU]
    ensures SLES !in [CENTOS, DEBIAN, OPENSUSE, RHEL, ROCKY, SLES_SAP]
    ensures SLES_SAP !in [CENTOS, DEBIAN, OPENSUSE, RHEL, ROCKY]
  {
    assert UBUNTU[0] == 'u' && WINDOWS[0] == 'w' && SLES[0] == 's' && SLES_SAP[0] == 's' && |SLES| != |SLES_SAP|;
    assert CENTOS[0] == 'c' && DEBIAN[0] == 'd' && OPENSUSE[0] == 'o' && RHEL[0] == 'r' && ROCKY[0] == 'r';
  }

  lemma UbuntuComponents(major: nat, minor: int)
    requires 1 <= major <= INT64_MAX && minor in {4, 10}
    ensures FromComponents(UBUNTU, Dec(major), TwoDigits(minor), "") == Ok(Ubuntu(major, minor))
  {
    AtoiDec(major);
    TwoDigitsParse(minor);
    StandardArchitecture("");
    StandardIsStandard(UBUNTU);
    NamesDiffer();
  }

  lemma UbuntuRoundTrip(r: Release)
    requires Valid(r) && r.Ubuntu?
    ensures FromGcloudOSArgument(AsGcloudArg(r)).Ok? <==> 10 <= r.major <= 99
    ensures 10 <= r.major <= 99 ==> FromGcloudOSArgument(AsGcloudArg(r)) == Ok(r)
  {
    ParsePrinted(r);
    JoinHead(r);
    DecLength(r.major);
    TwoDigitsParse(r.minor);
    UbuntuComponents(r.major, r.minor);
    var version := PrintedVersion(r);
    assert |version| == |Dec(r.major)| + 2;
    assert version[..|version| - 2] == Dec(r.major) && version[|version| - 2..] == TwoDigits(r.minor);
  }

  lemma WindowsRoundTrip(r: Release)
    requires Valid(r) && r.Windows?
    ensures FromGcloudOSArgument(AsGcloudArg(r)) ==
      Ok(Windows(r.version, if r.edition == R2 then R2 else "", PrintedArch(r)))
  {
    ParsePrinted(r);
    JoinHead(r);
    StandardArchitecture(PrintedArch(r));
    StandardIsStandard(WINDOWS);
    NamesDiffer();
    var version := PrintedVersion(r);
    if r.edition == R2 {
      assert version[|version| - 2..] == R2 && version[..|version| - 2] == r.version;
    } else {
      assert version == r.version;
      DigitsDoNotEndInR2(version);
    }
  }

  lemma DigitsDoNotEndInR2(s: string)
    requires AllDigits(s)
    ensures !HasSuffix(s, R2)
  {
    assert R2[0] == 'r';
    if |s| >= 2 {
      assert s[|s| - 2..][0] == s[|s| - 2];
    }
  }

  /** Printing a release and parsing the result gives a compatible release, exactly if the
      flag can express it. An Ubuntu version outside two digits does not parse at all; a
      Windows version of more than two digits loses its architecture. */
  lemma RoundTripExactlyWhen(r: Release)
    requires Valid(r)
    ensures var back := FromGcloudOSArgument(AsGcloudArg(r));
      (back.Ok? && ImportCompatible(r, back.value)) <==> Expressible(r)
  {
    match r {
      case Ubuntu(_, _) => UbuntuRoundTrip(r);
      case Windows(_, _, _) => WindowsRoundTrip(r);
      case CommonLinux(_, _, _) => CommonLinuxRoundTrip(r);
      case Sles(_, _, _) => SlesRoundTrip(r);
    }
  }

  /** Of releases that the flag can express, the printed values are equal exactly if the
      releases are compatible. */
  lemma SameValueExactlyWhenCompatible(a: Release, b: Release)
    requires Valid(a) && Valid(b) && Expressible(a) && Expressible(b)
    ensures AsGcloudArg(a) == AsGcloudArg(b) <==> ImportCompatible(a, b)
  {
    RoundTripExactlyWhen(a);
    RoundTripExactlyWhen(b);
    if AsGcloudArg(a) == AsGcloudArg(b) {
      var c := FromGcloudOSArgument(AsGcloudArg(a)).value;
      CompatibilityIsAnEquivalence(b, c, a);
      CompatibilityIsAnEquivalence(a, c, b);
    } else {
      CompatibilityIsAnEquivalence(a, b, a);
    }
  }
}
