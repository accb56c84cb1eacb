/** Identifiers of networks and subnetworks: printed, and split into their fields. */
module Resources {
  import opened Text

  datatype Network = Network(name: string, project: string)

  datatype Subnet = Subnet(name: string, project: string, region: string)

  const HTTPS := "https:"
  const MODERN_HOST := "//compute.googleapis.com/compute/v1/"
  const BARE_HOST := "//compute.googleapis.com/compute/"
  const LEGACY_HOST := "//www.googleapis.com/compute/v1/"

  const PREFIXES: seq<string> := [HTTPS + MODERN_HOST, BARE_HOST, HTTPS + LEGACY_HOST]

  /** Cuts off the first prefix of the list that fits. */
  function TrimFirst(s: string, prefixes: seq<string>): string {
    if prefixes == [] then s
    else if HasPrefix(s, prefixes[0]) then s[|prefixes[0]|..]
    else TrimFirst(s, prefixes[1..])
  }

  function TrimResourcePrefix(s: string): string {
    TrimFirst(s, PREFIXES)
  }

  function NetworkSegments(r: Network): seq<string> {
    (if r.project != "" then ["projects", r.project] else []) + ["global", "networks", r.name]
  }

  function SubnetSegments(r: Subnet): seq<string> {
    (if r.project != "" then ["projects", r.project] else []) + ["regions", r.region, "subnetworks", r.name]
  }

  function NetworkString(r: Network): string {
    if r.name == "" then ""
    else Join(NetworkSegments(r), '/')
  }

  function SubnetString(r: Subnet): string {
    if r.name == "" then ""
    else if r.region == "" then r.name
    else Join(SubnetSegments(r), '/')
  }

  /** The pattern takes an optional project, an optional literal scope and a name, all
      non-empty, and prefers to match the optional parts. */
  function SplitNetwork(input: string): Result<Network> {
    if input == "" then Ok(Network("", ""))
    else
      var t := Split(TrimResourcePrefix(input), '/');
      var n := |t|;
      if exists i | 0 <= i < n :: t[i] == "" then Err("not a network")
      else if n == 5 && t[0] == "projects" && t[2] == "global" && t[3] == "networks" then Ok(Network(t[4], t[1]))
      else if n == 3 && t[0] == "projects" then Ok(Network(t[2], t[1]))
      else if n == 3 && t[0] == "global" && t[1] == "networks" then Ok(Network(t[2], ""))
      else if n == 1 then Ok(Network(t[0], ""))
      else Err("not a network")
  }

  /** Takes the parts off from the left as far as they fit; one part must remain. */
  method SplitSubnetResource(input: string) returns (r: Result<Subnet>)
    ensures r == SplitSubnet(input)
  {
    if input == "" {
      return Ok(Subnet("", "", ""));
    }
    var parts := Split(TrimResourcePrefix(input), '/');
    var project, region := "", "";
    if |parts| == 6 && parts[0] == "projects" {
      project := parts[1];
      parts := parts[2..];
    }
    if |parts| == 4 && parts[0] == "regions" {
      region := parts[1];
      parts := parts[2..];
    }
    if |parts| == 2 && parts[0] == "subnetworks" {
      parts := parts[1..];
    }
    if |parts| != 1 {
      return Err("not a subnet");
    }
    return Ok(Subnet(parts[0], project, region));
  }

  /** The forms of a subnetwork identifier that are accepted. */
  function SplitSubnet(input: string): Result<Subnet> {
    if input == "" then Ok(Subnet("", "", ""))
    else
      var t := Split(TrimResourcePrefix(input), '/');
      var n := |t|;
      if n == 6 && t[0] == "projects" && t[2] == "regions" && t[4] == "subnetworks" then Ok(Subnet(t[5], t[1], t[3]))
      else if n == 4 && t[0] == "regions" && t[2] == "subnetworks" then Ok(Subnet(t[3], "", t[1]))
      else if n == 2 && t[0] == "subnetworks" then Ok(Subnet(t[1], "", ""))
      else if n == 1 then Ok(Subnet(t[0], "", ""))
      else Err("not a subnet")
  }

  /* Round trips. */

  predicate SlashFree(s: string) {
    '/' !in s
  }

  lemma {:induction false} TrimNone(s: string, prefixes: seq<string>)
    requires forall k | 0 <= k < |prefixes| :: !HasPrefix(s, prefixes[k])
    ensures TrimFirst(s, prefixes) == s
  {
    if prefixes != [] {
      TrimNone(s, prefixes[1..]);
    }
  }

  /** Every prefix starts with a segment that is empty or "https:". */
  lemma PrefixSegment(k: nat) returns (head: string, rest: string)
    requires k < |PREFIXES|
    ensures PREFIXES[k] == head + ['/'] + rest && (head == "" || head == "https:")
  {
    match k {
      case 0 => head, rest := SlashFirst(HTTPS, MODERN_HOST);
      case 1 =>
        head, rest := SlashFirst("", BARE_HOST);
        assert "" + BARE_HOST == BARE_HOST;
      case _ => head, rest := SlashFirst(HTTPS, LEGACY_HOST);
    }
  }

  lemma SlashFirst(head: string, host: string) returns (head': string, rest: string)
    requires host != "" && host[0] == '/'
    ensures head' == head && head + host == head + ['/'] + rest
  {
    head', rest := head, host[1..];
    assert host == ['/'] + rest;
  }

  /** A value whose first segment is not empty and not "https:" has no prefix to cut off,
      and neither has a value without a slash. */
  lemma NothingToTrim(s: string)
    requires SlashFree(s) || (Split(s, '/')[0] != "" && Split(s, '/')[0] != "https:")
    ensures TrimResourcePrefix(s) == s
  {
    forall k | 0 <= k < |PREFIXES|
      ensures !HasPrefix(s, PREFIXES[k])
    {
      var head, rest := PrefixSegment(k);
      FirstSegment(s, head, rest);
    }
    TrimNone(s, PREFIXES);
  }

  lemma FirstSegment(s: string, head: string, rest: string)
    requires SlashFree(head)
    ensures HasPrefix(s, head + ['/'] + rest) ==> !SlashFree(s) && Split(s, '/')[0] == head
  {
    var p := head + ['/'] + rest;
    if HasPrefix(s, p) {
      assert s[|head|] == p[|head|] == '/';
      assert s == head + ['/'] + s[|head| + 1..];
      SplitHead(head, s[|head| + 1..], '/');
    }
  }

  lemma {:induction false} TrimAt(s: string, prefixes: seq<string>, k: nat)
    requires k < |prefixes| && HasPrefix(s, prefixes[k])
    requires forall j | 0 <= j < k :: !HasPrefix(s, prefixes[j])
    ensures TrimFirst(s, prefixes) == s[|prefixes[k]|..]
  {
    if k > 0 {
      TrimAt(s, prefixes[1..], k - 1);
    }
  }

  /** Any accepted prefix is cut off: what follows it alone decides. */
  lemma PrefixIsCutOff(k: nat, s: string)
    requires k < |PREFIXES|
    ensures TrimResourcePrefix(PREFIXES[k] + s) == s
  {
    var t := PREFIXES[k] + s;
    assert HTTPS[0] == 'h' && |HTTPS| == 6 && BARE_HOST[0] == '/';
    assert MODERN_HOST[2] == 'c' && LEGACY_HOST[2] == 'w';
    assert k == 2 ==> t[8] == 'w' && PREFIXES[0][8] == 'c';
    assert k != 1 ==> t[0] == 'h';
    assert k == 1 ==> t[0] == '/';
    forall j | 0 <= j < k
      ensures !HasPrefix(t, PREFIXES[j])
    {
      var i := if j == 0 && k == 2 then 8 else 0;
      assert t[i] != PREFIXES[j][i];
    }
    TrimAt(t, PREFIXES, k);
    assert t[|PREFIXES[k]|..] == s;
  }

  predicate NetworkFieldsFree(r: Network) {
    SlashFree(r.name) && SlashFree(r.project)
  }

  /** A printed network splits back into the same fields exactly if its fields have no
      slash, and a network without a name has no project. */
  lemma NetworkRoundTripExactlyWhen(r: Network)
    ensures SplitNetwork(NetworkString(r)) == Ok(r) <==>
      NetworkFieldsFree(r) && (r.name == "" ==> r.project == "")
  {
    if r.name != "" {
      NetworkSplitsClean(NetworkString(r));
      if NetworkFieldsFree(r) {
        NetworkPrinted(r);
      }
    }
  }

  /** How a printed network with a name splits. */
  lemma NetworkPrinted(r: Network)
    requires r.name != "" && NetworkFieldsFree(r)
    ensures SplitNetwork(NetworkString(r)) == Ok(r)
  {
    var t := NetworkSegments(r);
    SplitJoin(t, '/');
    NothingToTrim(NetworkString(r));
    assert forall i | 0 <= i < |t| :: t[i] != "";
  }

  /** Fields that come from splitting have no slash. */
  lemma NetworkSplitsClean(input: string)
    ensures SplitNetwork(input).Ok? ==> NetworkFieldsFree(SplitNetwork(input).value)
  {
    JoinSplit(TrimResourcePrefix(input), '/');
    var t := Split(TrimResourcePrefix(input), '/');
    assert forall i | 0 <= i < |t| :: Free(t[i], '/');
  }

  predicate SubnetFieldsFree(r: Subnet) {
    SlashFree(r.name) && SlashFree(r.project) && SlashFree(r.region)
  }

  lemma SubnetSplitsClean(input: string)
    ensures SplitSubnet(input).Ok? ==> SubnetFieldsFree(SplitSubnet(input).value)
  {
    JoinSplit(TrimResourcePrefix(input), '/');
    var t := Split(TrimResourcePrefix(input), '/');
    assert forall i | 0 <= i < |t| :: Free(t[i], '/');
  }

  /** A printed subnetwork splits back into the same fields exactly if its fields have no
      slash, one without a name has no other field, and one without a region has no
      project: such a project is not printed. */
  lemma SubnetRoundTripExactlyWhen(r: Subnet)
    ensures SplitSubnet(SubnetString(r)) == Ok(r) <==>
      && SubnetFieldsFree(r)
      && (r.name == "" ==> r.project == "" && r.region == "")
      && (r.region == "" ==> r.project == "")
  {
    if r.name != "" {
      SubnetSplitsClean(SubnetString(r));
      if SubnetFieldsFree(r) {
        SubnetPrinted(r);
      }
    }
  }

  /** How a printed subnetwork with a name splits. */
  lemma SubnetPrinted(r: Subnet)
    requires r.name != "" && SubnetFieldsFree(r)
    ensures SplitSubnet(SubnetString(r)) == Ok(if r.region == "" then Subnet(r.name, "", "") else r)
  {
    if r.region == "" {
      SplitFree(r.name, '/');
    } else {
      SplitJoin(SubnetSegments(r), '/');
    }
    NothingToTrim(SubnetString(r));
  }
}
