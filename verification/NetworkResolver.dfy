/** Resolving the network and subnetwork that a user names, or leaves out. */
module NetworkResolver {
  import opened Text
  import opened Resources

  /* Surrounding white space. */

  predicate IsSpace(c: char) {
    || c in "\t\n\U{000B}\U{000C}\r "
    || c in ['\U{0085}', '\U{00A0}', '\U{1680}', '\U{2028}', '\U{2029}', '\U{202F}', '\U{205F}', '\U{3000}']
    || '\U{2000}' <= c <= '\U{200A}'
  }

  function TrimLeft(s: string): string {
    if s != "" && IsSpace(s[0]) then TrimLeft(s[1..]) else s
  }

  function TrimRight(s: string): string {
    if s != "" && IsSpace(s[|s| - 1]) then TrimRight(s[..|s| - 1]) else s
  }

  function TrimSpace(s: string): string {
    TrimRight(TrimLeft(s))
  }

  predicate Trimmed(s: string) {
    s == "" || (!IsSpace(s[0]) && !IsSpace(s[|s| - 1]))
  }

  lemma {:induction false} TrimRightKeepsFirst(s: string)
    requires s == "" || !IsSpace(s[0])
    ensures Trimmed(TrimRight(s))
  {
    if s != "" && IsSpace(s[|s| - 1]) {
      TrimRightKeepsFirst(s[..|s| - 1]);
    }
  }

  lemma {:induction false} TrimLeftTrims(s: string)
    ensures TrimLeft(s) == "" || !IsSpace(TrimLeft(s)[0])
  {
    if s != "" && IsSpace(s[0]) {
      TrimLeftTrims(s[1..]);
    }
  }

  lemma TrimSpaceTrims(s: string)
    ensures Trimmed(TrimSpace(s))
    ensures Trimmed(s) ==> TrimSpace(s) == s
  {
    TrimLeftTrims(s);
    TrimRightKeepsFirst(TrimLeft(s));
  }

  /* Parsing and filling in. */

  datatype Parsed = Parsed(network: Network, subnet: Subnet)

  function WithProject(r: Network, project: string): Network {
    if NetworkString(r) != "" && r.project == "" then r.(project := project) else r
  }

  function WithLocation(r: Subnet, region: string, project: string): Subnet {
    if SubnetString(r) == "" then r
    else Subnet(r.name, if r.project == "" then project else r.project, if r.region == "" then region else r.region)
  }

  function Parse(network: string, subnet: string, region: string, project: string): Result<Parsed> {
    match SplitNetwork(TrimSpace(network))
    case Err(e) => Err(e)
    case Ok(n) =>
      match SplitSubnet(TrimSpace(subnet))
      case Err(e) => Err(e)
      case Ok(s) =>
        if NetworkString(n) == "" && SubnetString(s) == ""
        then Ok(Parsed(Network("default", project), Subnet("", "", "")))
        else Ok(Parsed(WithProject(n, project), WithLocation(s, region, project)))
  }

  /** Fills in the fields one after the other. */
  method ParseNetworkAndSubnet(originalNetwork: string, originalSubnet: string, region: string, project: string)
      returns (r: Result<Parsed>)
    ensures r == Parse(originalNetwork, originalSubnet, region, project)
  {
    var n := SplitNetwork(TrimSpace(originalNetwork));
    if n.Err? {
      return Err(n.message);
    }
    var s := SplitSubnetResource(TrimSpace(originalSubnet));
    if s.Err? {
      return Err(s.message);
    }
    var network, subnet := n.value, s.value;
    if NetworkString(network) == "" && SubnetString(subnet) == "" {
      return Ok(Parsed(Network("default", project), Subnet("", "", "")));
    }
    if NetworkString(network) != "" {
      if network.project == "" {
        network := network.(project := project);
      }
    }
    if SubnetString(subnet) != "" {
      if subnet.project == "" {
        subnet := subnet.(project := project);
      }
      if subnet.region == "" {
        subnet := subnet.(region := region);
      }
    }
    return Ok(Parsed(network, subnet));
  }

  /** The Compute API: the subnetworks with the links of their networks, and the networks
      with their own links. */
  datatype Client = Client(subnets: map<(string, string, string), string>, networks: map<(string, string), string>)

  function Resolve(c: Client, network: string, subnet: string, region: string, project: string):
      Result<(string, string)>
  {
    match Parse(network, subnet, region, project)
    case Err(e) => Err(e)
    case Ok(p) =>
      var (n, s) := (p.network, p.subnet);
      var hasSubnet, hasNetwork := SubnetString(s) != "", NetworkString(n) != "";
      if !hasNetwork && !hasSubnet then Ok(("", ""))
      else if hasSubnet && (s.project, s.region, s.name) !in c.subnets then Err("no subnetwork")
      else if hasNetwork && (n.project, n.name) !in c.networks then Err("no network")
      else if hasSubnet && hasNetwork && c.subnets[(s.project, s.region, s.name)] != c.networks[(n.project, n.name)]
      then Err("another network")
      else Ok((NetworkString(n), SubnetString(s)))
  }

  /* Resolving what has been resolved. */

  /** A string and its end: nothing, or the same last character. */
  ghost predicate SameEnd(s: string, end: string) {
    end != "" ==> s != "" && s[|s| - 1] == end[|end| - 1]
  }

  lemma {:induction false} JoinEnds(parts: seq<string>, sep: char)
    requires parts != []
    ensures SameEnd(Join(parts, sep), parts[|parts| - 1])
  {
    if |parts| > 1 {
      JoinEnds(parts[1..], sep);
    }
  }

  lemma {:induction false} TrimFirstKeepsEnd(s: string, prefixes: seq<string>)
    ensures SameEnd(s, TrimFirst(s, prefixes))
  {
    if prefixes != [] {
      TrimFirstKeepsEnd(s, prefixes[1..]);
    }
  }

  lemma LastPartKeepsEnd(input: string)
    ensures var t := Split(TrimResourcePrefix(input), '/'); SameEnd(input, t[|t| - 1])
  {
    var rest := TrimResourcePrefix(input);
    TrimFirstKeepsEnd(input, PREFIXES);
    JoinSplit(rest, '/');
    JoinEnds(Split(rest, '/'), '/');
  }

  lemma NamesKeepEnd(input: string)
    ensures SplitNetwork(input).Ok? ==> SameEnd(input, SplitNetwork(input).value.name)
    ensures SplitSubnet(input).Ok? ==> SameEnd(input, SplitSubnet(input).value.name)
  {
    LastPartKeepsEnd(input);
  }

  lemma PrintedIsTrimmed(t: seq<string>)
    requires |t| > 1 && t[0] in ["projects", "global", "regions"]
    requires t[|t| - 1] != "" && !IsSpace(t[|t| - 1][|t[|t| - 1]| - 1])
    ensures Trimmed(Join(t, '/')) && TrimSpace(Join(t, '/')) == Join(t, '/')
  {
    JoinEnds(t, '/');
    assert Join(t, '/')[0] == t[0][0];
    assert "projects"[0] == 'p' && "global"[0] == 'g' && "regions"[0] == 'r';
    TrimSpaceTrims(Join(t, '/'));
  }

  /** Values that start with another word than a prefix have no prefix to cut off. */
  lemma PrintedIsNotCut(t: seq<string>)
    requires |t| > 1 && SlashFree(t[0]) && t[0] != "" && t[0][0] != 'h'
    ensures TrimResourcePrefix(Join(t, '/')) == Join(t, '/') && Split(Join(t, '/'), '/')[0] == t[0]
  {
    SplitHead(t[0], Join(t[1..], '/'), '/');
    assert "https:"[0] == 'h';
    NothingToTrim(Join(t, '/'));
  }

  /** The name of a resource as it comes out of parsing. */
  ghost predicate CleanName(name: string) {
    name != "" && SlashFree(name) && !IsSpace(name[|name| - 1])
  }

  /** A printed network parses back exactly if its project has no slash, and not at all if
      it has one. */
  lemma NetworkAgain(r: Network)
    requires CleanName(r.name)
    ensures SplitNetwork(TrimSpace(NetworkString(r))) ==
      if SlashFree(r.project) then Ok(r) else Err("not a network")
  {
    var t := NetworkSegments(r);
    PrintedIsTrimmed(t);
    if SlashFree(r.project) {
      NetworkRoundTripExactlyWhen(r);
    } else {
      SplitJoinSize(t, '/');
      PrintedIsNotCut(t);
      assert t[1] == r.project && r.project in t;
    }
  }

  /** The same for a subnetwork with a region. */
  lemma SubnetAgain(r: Subnet)
    requires CleanName(r.name) && r.region != ""
    ensures SplitSubnet(TrimSpace(SubnetString(r))) ==
      if SlashFree(r.project) && SlashFree(r.region) then Ok(r) else Err("not a subnet")
  {
    PrintedIsTrimmed(SubnetSegments(r));
    if SlashFree(r.project) && SlashFree(r.region) {
      SubnetRoundTripExactlyWhen(r);
    } else {
      SlashedSubnet(r);
    }
  }

  lemma SlashedSubnet(r: Subnet)
    requires r.name != "" && r.region != "" && !(SlashFree(r.project) && SlashFree(r.region))
    ensures SplitSubnet(SubnetString(r)).Err?
  {
    var t := SubnetSegments(r);
    SplitJoinSize(t, '/');
    PrintedIsNotCut(t);
    assert r.project in t || r.project == "";
    assert r.region in t;
  }

  /** Without a region only the name is printed. */
  lemma BareSubnetAgain(r: Subnet)
    requires CleanName(r.name) && r.region == ""
    ensures SplitSubnet(TrimSpace(SubnetString(r))) == Ok(Subnet(TrimSpace(r.name), "", ""))
    ensures TrimSpace(r.name) != "" && (TrimSpace(r.name) == r.name <==> !IsSpace(r.name[0]))
  {
    TrimSpaceTrims(r.name);
    TrimLeftEnd(r.name);
    var name := TrimSpace(r.name);
    NothingToTrim(name);
    SplitFree(name, '/');
  }

  lemma {:induction false} TrimLeftEnd(s: string)
    requires CleanName(s)
    ensures CleanName(TrimLeft(s)) && TrimSpace(s) == TrimLeft(s)
  {
    if IsSpace(s[0]) {
      TrimLeftEnd(s[1..]);
    }
  }

  /* What parsing yields. */

  /** At least one resource; names without slashes; and a project or a region is missing
      only if there was none to fill in. */
  lemma ParsedFields(network: string, subnet: string, region: string, project: string)
    requires Parse(network, subnet, region, project).Ok?
    ensures var p := Parse(network, subnet, region, project).value;
      && (p.network.name != "" || p.subnet.name != "")
      && (p.network.name == "" ==> p.network == Network("", ""))
      && (p.network.name != "" ==> CleanName(p.network.name) && (p.network.project == "" ==> project == ""))
      && (p.subnet.name != "" ==>
            && CleanName(p.subnet.name)
            && (p.subnet.project == "" ==> project == "")
            && (p.subnet.region == "" ==> region == ""))
  {
    var n, s := SplitNetwork(TrimSpace(network)).value, SplitSubnet(TrimSpace(subnet)).value;
    ParsedNames(network, subnet);
    StringsNameResources(n, s);
    assert "default"[6] == 't';
  }

  lemma ParsedNames(network: string, subnet: string)
    ensures var n := SplitNetwork(TrimSpace(network)); n.Ok? ==>
      NetworkFieldsFree(n.value) && (n.value.name != "" ==> CleanName(n.value.name))
    ensures var s := SplitSubnet(TrimSpace(subnet)); s.Ok? ==>
      SubnetFieldsFree(s.value) && (s.value.name != "" ==> CleanName(s.value.name))
  {
    TrimSpaceTrims(network);
    TrimSpaceTrims(subnet);
    NamesKeepEnd(TrimSpace(network));
    NamesKeepEnd(TrimSpace(subnet));
    NetworkSplitsClean(TrimSpace(network));
    SubnetSplitsClean(TrimSpace(subnet));
  }

  predicate Usable(field: string) {
    field != "" && SlashFree(field)
  }

  predicate Complete(p: Parsed) {
    && (p.network.name != "" ==> Usable(p.network.project))
    && (p.subnet.name != "" ==> Usable(p.subnet.project) && Usable(p.subnet.region))
  }

  /** The user has left out a project: of a network, of a subnetwork, or of everything. */
  predicate FillsProject(network: Network, subnet: Subnet) {
    || (network.name == "" && subnet.name == "")
    || (network.name != "" && network.project == "")
    || (subnet.name != "" && subnet.project == "")
  }

  predicate FillsRegion(subnet: Subnet) {
    subnet.name != "" && subnet.region == ""
  }

  /** Every resource has a usable project and region if and only if those to be filled in
      are usable, as far as the user has left any out. */
  lemma ParsedIsCompleteExactlyWhen(network: string, subnet: string, region: string, project: string)
    requires Parse(network, subnet, region, project).Ok?
    ensures var (n, s) := (SplitNetwork(TrimSpace(network)).value, SplitSubnet(TrimSpace(subnet)).value);
      Complete(Parse(network, subnet, region, project).value) <==>
        (FillsProject(n, s) ==> Usable(project)) && (FillsRegion(s) ==> Usable(region))
  {
    var n, s := SplitNetwork(TrimSpace(network)).value, SplitSubnet(TrimSpace(subnet)).value;
    ParsedNames(network, subnet);
    StringsNameResources(n, s);
  }

  lemma StringsNameResources(n: Network, s: Subnet)
    ensures NetworkString(n) == "" <==> n.name == ""
    ensures SubnetString(s) == "" <==> s.name == ""
  {
    if n.name != "" {
      JoinIsNotEmpty(NetworkSegments(n));
    }
    if s.name != "" && s.region != "" {
      JoinIsNotEmpty(SubnetSegments(s));
    }
  }

  lemma JoinIsNotEmpty(t: seq<string>)
    requires |t| > 1
    ensures Join(t, '/') != ""
  {
  }

  /* Resolving what has been resolved. */

  /** The printed results of a resolution can be parsed again. */
  predicate Reparses(p: Parsed) {
    && (p.network.name != "" ==> SlashFree(p.network.project))
    && (p.subnet.name != "" && p.subnet.region != "" ==> SlashFree(p.subnet.project) && SlashFree(p.subnet.region))
  }

  /** What they are then: of a subnetwork without a region only the name is left. */
  function Again(s: Subnet, project: string): Subnet {
    if s.name == "" then Subnet("", "", "")
    else if s.region == "" then Subnet(TrimSpace(s.name), project, "")
    else s
  }

  lemma NetworkPartAgain(r: Network)
    requires if r.name == "" then r == Network("", "") else CleanName(r.name)
    ensures SplitNetwork(TrimSpace(NetworkString(r))) ==
      if r.name == "" || SlashFree(r.project) then Ok(r) else Err("not a network")
  {
    if r.name != "" {
      NetworkAgain(r);
    } else {
      TrimSpaceTrims("");
    }
  }

  lemma SubnetPartAgain(r: Subnet)
    requires r.name != "" ==> CleanName(r.name)
    ensures SplitSubnet(TrimSpace(SubnetString(r))) ==
      if r.name == "" then Ok(Subnet("", "", ""))
      else if r.region == "" then Ok(Subnet(TrimSpace(r.name), "", ""))
      else if SlashFree(r.project) && SlashFree(r.region) then Ok(r)
      else Err("not a subnet")
  {
    if r.name == "" {
      TrimSpaceTrims("");
    } else if r.region == "" {
      BareSubnetAgain(r);
    } else {
      SubnetAgain(r);
    }
  }

  lemma ParseAgain(network: string, subnet: string, region: string, project: string)
    requires Parse(network, subnet, region, project).Ok?
    ensures var p := Parse(network, subnet, region, project).value;
      var again := Parse(NetworkString(p.network), SubnetString(p.subnet), region, project);
      if Reparses(p) then again == Ok(Parsed(p.network, Again(p.subnet, project))) else again.Err?
  {
    var p := Parse(network, subnet, region, project).value;
    var n, s := p.network, p.subnet;
    ParsedFields(network, subnet, region, project);
    NetworkPartAgain(n);
    SubnetPartAgain(s);
    StringsNameResources(n, s);
    StringsNameResources(Network("", ""), Again(s, ""));
    if s.name != "" && s.region == "" {
      BareSubnetAgain(s);
    }
  }

  /** A subnetwork that is printed by its name alone is found again by that name. */
  ghost predicate FoundByName(c: Client, n: Network, s: Subnet, project: string) {
    && s.name != "" && !IsSpace(s.name[0])
    && (project, "", s.name) in c.subnets
    && (n.name != "" && (n.project, n.name) in c.networks ==>
          c.subnets[(project, "", s.name)] == c.networks[(n.project, n.name)])
  }

  /** Resolving the results of a successful resolution gives the same results if and only if
      they can be parsed again, and a subnetwork that has been left without a region is
      found by its name. */
  lemma ResolveIsIdempotentExactlyWhen(c: Client, network: string, subnet: string, region: string, project: string)
    requires Resolve(c, network, subnet, region, project).Ok?
    ensures var (n, s) := Resolve(c, network, subnet, region, project).value;
      var p := Parse(network, subnet, region, project).value;
      Resolve(c, n, s, region, project) == Ok((n, s)) <==>
        && Reparses(p)
        && (p.subnet.name != "" && p.subnet.region == "" ==> FoundByName(c, p.network, p.subnet, project))
  {
    var p := Parse(network, subnet, region, project).value;
    ParsedFields(network, subnet, region, project);
    ParseAgain(network, subnet, region, project);
    StringsNameResources(p.network, p.subnet);
    StringsNameResources(p.network, Again(p.subnet, project));
    if p.subnet.name != "" && p.subnet.region == "" {
      BareSubnetAgain(p.subnet);
    }
  }

  /** It fails for every project with a slash, if the backend has its default network. */
  lemma SlashedProjectIsNotResolvedAgain(region: string, project: string, link: string)
    requires !SlashFree(project)
    ensures var c := Client(map[], map[(project, "default") := link]);
      var n := NetworkString(Network("default", project));
      Resolve(c, "", "", region, project) == Ok((n, "")) && Resolve(c, n, "", region, project).Err?
  {
    var p := Parsed(Network("default", project), Subnet("", "", ""));
    TrimSpaceTrims("");
    assert Parse("", "", region, project) == Ok(p);
    StringsNameResources(p.network, p.subnet);
    ParseAgain("", "", region, project);
  }

  /** The backend has resources only in projects and regions with usable names. */
  ghost predicate KnowsOnlyUsable(c: Client) {
    && (forall k | k in c.subnets :: Usable(k.0) && Usable(k.1))
    && (forall k | k in c.networks :: Usable(k.0))
  }

  /** So resolving is idempotent for every project and region on a backend that has only
      usable names, and on every backend if what is filled in is usable. */
  lemma ResolveIsIdempotent(c: Client, network: string, subnet: string, region: string, project: string)
    requires Resolve(c, network, subnet, region, project).Ok?
    requires var (n, s) := (SplitNetwork(TrimSpace(network)).value, SplitSubnet(TrimSpace(subnet)).value);
      KnowsOnlyUsable(c) || ((FillsProject(n, s) ==> Usable(project)) && (FillsRegion(s) ==> Usable(region)))
    ensures var (n, s) := Resolve(c, network, subnet, region, project).value;
      Resolve(c, n, s, region, project) == Ok((n, s))
  {
    var p := Parse(network, subnet, region, project).value;
    ParsedIsCompleteExactlyWhen(network, subnet, region, project);
    ParsedFields(network, subnet, region, project);
    StringsNameResources(p.network, p.subnet);
    assert Complete(p);
    ResolveIsIdempotentExactlyWhen(c, network, subnet, region, project);
  }
}
