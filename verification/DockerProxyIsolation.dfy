/** What an empty report of the network check means. */
module DockerProxyIsolation {
  import opened Basics
  import opened ComposeFile
  import opened DockerProxyNetwork

  // ----- who shares what with the proxy -------------------------------------

  /** Whether service `s` is attached by `key` to the Docker network `net`. */
  ghost predicate AttachedBy(c: Compose, project: string, s: string, key: string, net: string) {
    && key in Attached(Lookup(c.services, s))
    && exists e :: e in WithDefault(c.networks) && Declares(e, project, key, net)
  }

  ghost predicate Declares(e: Entry, project: string, key: string, net: string) {
    e.key == key && !NameOf(key, e.value).Unresolved? && Deployed(NameOf(key, e.value), project) == net
  }

  ghost predicate OnNetwork(c: Compose, project: string, s: string, net: string) {
    Has(c.services, s) && exists key :: AttachedBy(c, project, s, key, net)
  }

  /** Whether `s` lives in the namespace of `owner`: `names` leads from one to the other. */
  ghost predicate InNamespaceOf(c: Compose, s: string, owner: string, names: seq<string>) {
    IsChain(c.services, names) && names[0] == s && Last(names) == owner
  }

  /** Whether `owner` is the proxy or on one of the proxy's networks. */
  ghost predicate NextToProxy(c: Compose, project: string, owner: string) {
    owner == PROXY || exists net :: OnNetwork(c, project, owner, net) && OnNetwork(c, project, PROXY, net)
  }

  /** Whether service `s` shares a network namespace or a Docker network with the
      proxy in a deployment called `project`. */
  ghost predicate SharesWithProxy(c: Compose, project: string, s: string) {
    Has(c.services, s) && exists owner, names :: InNamespaceOf(c, s, owner, names) && NextToProxy(c, project, owner)
  }

  // ----- what the parts of the report say -----------------------------------

  lemma {:induction false} NoUnknownNames(networks: seq<Entry>)
    requires NameReport(networks) == []
    ensures forall e | e in networks :: !NameUnknown(e)
  {
    if networks != [] {
      NoUnknownNames(networks[..|networks| - 1]);
      forall e | e in networks ensures !NameUnknown(e) {
        InFrontOrLast(networks, e);
      }
    }
  }

  lemma {:induction false} NoAliases(protected: NetworkName, networks: seq<Entry>)
    requires AliasReport(protected, networks) == []
    ensures forall e | e in networks :: !NamedAlias(protected, e)
  {
    if networks != [] {
      NoAliases(protected, networks[..|networks| - 1]);
      forall e | e in networks ensures !NamedAlias(protected, e) {
        InFrontOrLast(networks, e);
      }
    }
  }

  lemma {:induction false} NoModes(services: seq<Entry>, part: seq<Entry>)
    requires ServicesReport(services, part) == []
    ensures forall e | e in part && e.key !in MEMBERS :: ModeVerdict(services, e.key) == None
  {
    if part != [] {
      NoModes(services, part[..|part| - 1]);
      assert part == part[..|part| - 1] + [part[|part| - 1]];
      assert ServiceReport(services, part[|part| - 1]) == [];
    }
  }

  lemma {:induction false} MembersAre(aliases: set<string>, part: seq<Entry>, s: string)
    ensures s in Members(aliases, part) <==> exists e :: e in part && e.key == s && Joins(aliases, e)
  {
    if part != [] {
      MembersAre(aliases, part[..|part| - 1], s);
      assert part == part[..|part| - 1] + [part[|part| - 1]];
    }
  }

  // ----- the joined list of members -----------------------------------------

  lemma {:induction false} InsertKeeps(x: string, xs: seq<string>, y: string)
    ensures y in Insert(x, xs) <==> y == x || y in xs
  {
    if xs != [] && Before(xs[0], x) {
      InsertKeeps(x, xs[1..], y);
    }
  }

  lemma {:induction false} SortKeeps(xs: seq<string>, y: string)
    ensures y in Sort(xs) <==> y in xs
  {
    if xs != [] {
      SortKeeps(xs[1..], y);
      InsertKeeps(xs[0], Sort(xs[1..]), y);
    }
  }

  lemma {:induction false} UniqueKeeps(xs: seq<string>, y: string)
    ensures y in Unique(xs) <==> y in xs
  {
    if xs != [] {
      UniqueKeeps(xs[..|xs| - 1], y);
      assert xs == xs[..|xs| - 1] + [xs[|xs| - 1]];
    }
  }

  /** The length of the joined list, counting a comma after every name. */
  function Length(xs: seq<string>): nat {
    if xs == [] then 0 else |xs[0]| + 1 + Length(xs[1..])
  }

  lemma {:induction false} JoinLength(xs: seq<string>)
    requires xs != []
    ensures |Join(xs)| + 1 == Length(xs)
  {
    if |xs| > 1 {
      JoinLength(xs[1..]);
    }
  }

  lemma {:induction false} WithoutOne(xs: seq<string>, x: string) returns (ys: seq<string>)
    requires x in xs
    ensures Length(xs) == |x| + 1 + Length(ys)
    ensures forall y | y in xs && y != x :: y in ys
  {
    if xs[0] == x {
      ys := xs[1..];
    } else {
      var rest := WithoutOne(xs[1..], x);
      ys := [xs[0]] + rest;
      assert ys[1..] == rest;
    }
  }

  /** Two names that join to the expected text leave no room for a third. */
  lemma OnlyMembers(members: seq<string>, s: string)
    requires PROXY in members && UPDATER in members && s in members && MembersReport(members) == []
    ensures s in MEMBERS
  {
    var sorted := Sort(Unique(members));
    forall y | y in members ensures y in sorted {
      UniqueKeeps(members, y);
      SortKeeps(Unique(members), y);
    }
    JoinLength(sorted);
    ExpectedJoin();
    if s !in MEMBERS {
      var ys := WithoutOne(sorted, PROXY);
      var zs := WithoutOne(ys, UPDATER);
      var rest := WithoutOne(zs, s);
    }
  }

  lemma ExpectedJoin()
    ensures |Join(Sort(MEMBERS))| == 27
  {
    assert MEMBERS[1..] == [UPDATER] && [UPDATER][1..] == [];
    assert Sort([UPDATER]) == [UPDATER];
    assert !Before(UPDATER, PROXY) by {
      assert UPDATER[0] == 'u' && PROXY[0] == 'd';
    }
    assert Sort(MEMBERS) == [PROXY] + [UPDATER];
    assert ([PROXY] + [UPDATER])[1..] == [UPDATER];
    assert Join([PROXY] + [UPDATER]) == PROXY + "," + UPDATER;
  }

  // ----- the theorem --------------------------------------------------------

  /** What an empty report says, part by part. */
  lemma PartsOfReport(c: Compose)
    requires Report(c) == []
    ensures var networks := WithDefault(c.networks);
            var protected := NameOf(NETWORK, Lookup(networks, NETWORK));
            && NameReport(networks) == [] && AliasReport(protected, networks) == []
            && ServicesReport(c.services, c.services) == []
            && ProxyReport(c.services) == [] && UpdaterReport(c.services) == []
            && MembersReport(Members(Aliases(protected, networks), c.services)) == []
            && Field(Lookup(networks, NETWORK), "internal") == Bool(true)
  {
  }

  lemma {:induction false} OthersDistinct(networks: seq<Entry>, key: string)
    requires DistinctKeys(networks)
    ensures DistinctKeys(Others(networks, key))
    ensures forall e :: e in Others(networks, key) <==> e in networks && e.key != key
  {
    if networks != [] {
      OthersDistinct(networks[1..], key);
      assert forall e :: e in networks <==> e == networks[0] || e in networks[1..];
      var rest := Others(networks[1..], key);
      forall i | 0 <= i < |rest| ensures networks[0].key != rest[i].key {
        assert rest[i] in networks[1..];
      }
    }
  }

  lemma NetworksDistinct(networks: seq<Entry>)
    requires DistinctKeys(networks)
    ensures DistinctKeys(WithDefault(networks))
  {
    var rest := if Has(networks, "default") then Others(networks, "default") else networks;
    OthersDistinct(networks, "default");
    forall i | 0 <= i < |rest| ensures rest[i].key != "default" {
      assert rest[i] in rest;
    }
  }

  function Protected(c: Compose): NetworkName {
    NameOf(NETWORK, Lookup(WithDefault(c.networks), NETWORK))
  }

  lemma ProxyFacts(services: seq<Entry>)
    requires ProxyReport(services) == []
    ensures !Absent(Lookup(services, PROXY)) && ModeOf(services, PROXY) == Undefined
    ensures Attached(Lookup(services, PROXY)) == [NETWORK]
  {
  }

  lemma UpdaterFacts(services: seq<Entry>)
    requires UpdaterReport(services) == []
    ensures !Absent(Lookup(services, UPDATER)) && ModeOf(services, UPDATER) == Undefined
    ensures NETWORK in Attached(Lookup(services, UPDATER))
  {
  }

  /** Whether `m` is there, in its own namespace, on the protected network. */
  ghost predicate Present(c: Compose, m: string) {
    && Has(c.services, m) && ModeOf(c.services, m) == Undefined && NETWORK in Attached(Lookup(c.services, m))
    && m in Members(Aliases(Protected(c), WithDefault(c.networks)), c.services)
  }

  lemma IsPresent(c: Compose, m: string)
    requires !Absent(Lookup(c.services, m)) && ModeOf(c.services, m) == Undefined
    requires NETWORK in Attached(Lookup(c.services, m))
    ensures Present(c, m)
  {
    var e := Entry(m, Lookup(c.services, m));
    assert e in c.services;
    MembersAre(Aliases(Protected(c), WithDefault(c.networks)), c.services, m);
  }

  /** A network key that is resolved and is the protected network only by its name. */
  ghost predicate NetworkOk(c: Compose, e: Entry) {
    && !NameUnknown(e) && !NamedAlias(Protected(c), e) && !Protected(c).Unresolved?
    && (e.key == NETWORK ==> NameOf(NETWORK, e.value) == Protected(c))
  }

  lemma NetworkDeclared(c: Compose, e: Entry)
    requires DistinctKeys(c.networks) && e in WithDefault(c.networks) && Has(WithDefault(c.networks), NETWORK)
    requires NameReport(WithDefault(c.networks)) == [] && AliasReport(Protected(c), WithDefault(c.networks)) == []
    ensures NetworkOk(c, e)
  {
    NetworksDistinct(c.networks);
    var networks := WithDefault(c.networks);
    NoUnknownNames(networks);
    NoAliases(Protected(c), networks);
    LookupFinds(networks, e);
    var own :| own in networks && own.key == NETWORK;
    LookupFinds(networks, own);
    assert !NameUnknown(own);
  }

  ghost predicate NoMode(c: Compose, e: Entry) {
    e.key in MEMBERS || ModeVerdict(c.services, e.key) == None
  }

  function MembersOf(c: Compose): seq<string> {
    Members(Aliases(Protected(c), WithDefault(c.networks)), c.services)
  }

  /** What an empty report leaves of the file. */
  ghost predicate Isolated(c: Compose) {
    && DistinctKeys(c.services) && Has(WithDefault(c.networks), NETWORK)
    && Present(c, PROXY) && Present(c, UPDATER) && Attached(Lookup(c.services, PROXY)) == [NETWORK]
    && (forall e | e in c.services :: NoMode(c, e))
    && (forall e | e in WithDefault(c.networks) :: NetworkOk(c, e))
    && (forall s | s in MembersOf(c) :: s in MEMBERS)
  }

  lemma NetworksOk(c: Compose)
    requires DistinctKeys(c.networks) && Has(WithDefault(c.networks), NETWORK)
    requires NameReport(WithDefault(c.networks)) == [] && AliasReport(Protected(c), WithDefault(c.networks)) == []
    ensures forall e | e in WithDefault(c.networks) :: NetworkOk(c, e)
  {
    forall e | e in WithDefault(c.networks) ensures NetworkOk(c, e) {
      NetworkDeclared(c, e);
    }
  }

  lemma MembersOk(c: Compose)
    requires Present(c, PROXY) && Present(c, UPDATER) && MembersReport(MembersOf(c)) == []
    ensures forall s | s in MembersOf(c) :: s in MEMBERS
  {
    forall s | s in MembersOf(c) ensures s in MEMBERS {
      OnlyMembers(MembersOf(c), s);
    }
  }

  /** An empty report on a file whose mappings have distinct keys. */
  ghost predicate Accepted(c: Compose) {
    DistinctKeys(c.services) && DistinctKeys(c.networks) && Report(c) == []
  }

  lemma AcceptedIsIsolated(c: Compose)
    requires Accepted(c)
    ensures Isolated(c)
  {
    PartsOfReport(c);
    ProxyFacts(c.services);
    UpdaterFacts(c.services);
    IsPresent(c, PROXY);
    IsPresent(c, UPDATER);
    NoModes(c.services, c.services);
    assert Entry(NETWORK, Lookup(WithDefault(c.networks), NETWORK)) in WithDefault(c.networks);
    NetworksOk(c);
    MembersOk(c);
  }

  /** A service on the protected network, by whatever key, is a member. */
  lemma OnProtectedIsMember(c: Compose, project: string, s: string, net: string)
    requires Isolated(c) && OnNetwork(c, project, s, net)
    requires !Protected(c).Unresolved? && net == Deployed(Protected(c), project)
    ensures s in MEMBERS
  {
    var key :| AttachedBy(c, project, s, key, net);
    var e :| e in WithDefault(c.networks) && Declares(e, project, key, net);
    assert NetworkOk(c, e);
    if key != NETWORK {
      SameWhenDeployed(Protected(c), NameOf(key, e.value), project);
    }
    JoinsIsMember(c, s);
  }

  lemma JoinsIsMember(c: Compose, s: string)
    requires Isolated(c) && Has(c.services, s) && NETWORK in Attached(Lookup(c.services, s))
    ensures s in MEMBERS
  {
    var own :| own in c.services && own.key == s;
    LookupFinds(c.services, own);
    var aliases := Aliases(Protected(c), WithDefault(c.networks));
    assert NETWORK in aliases && NETWORK in Attached(own.value);
    MembersAre(aliases, c.services, s);
  }

  lemma ProxyNetwork(c: Compose, project: string, net: string)
    requires Isolated(c) && OnNetwork(c, project, PROXY, net)
    ensures !Protected(c).Unresolved? && net == Deployed(Protected(c), project)
  {
    var key :| AttachedBy(c, project, PROXY, key, net);
    var e :| e in WithDefault(c.networks) && Declares(e, project, key, net);
    assert key in [NETWORK];
    assert NetworkOk(c, e);
  }

  /** No chain of namespaces leads to a member from outside. */
  lemma NoChainToMember(c: Compose, names: seq<string>)
    requires Isolated(c) && IsChain(c.services, names) && Last(names) in MEMBERS
    ensures |names| == 1
  {
    if |names| > 1 {
      assert LinksTo(c.services, names, |names| - 2);
      NoLinkToMember(c, names[|names| - 2]);
    }
  }

  lemma NoLinkToMember(c: Compose, x: string)
    requires Isolated(c) && Link(c.services, x).Some?
    ensures Link(c.services, x).value !in MEMBERS
  {
    LinkIsDeclared(c.services, x);
    var e :| e in c.services && e.key == x;
    assert NoMode(c, e);
    if Link(c.services, x).value in MEMBERS {
      DirectJoinIsReported(c.services, x);
    }
  }

  lemma ProtectedIsDeclared(c: Compose, project: string) returns (net: string)
    requires Isolated(c)
    ensures forall m :: Present(c, m) ==> OnNetwork(c, project, m, net)
  {
    var e :| e in WithDefault(c.networks) && e.key == NETWORK;
    assert NetworkOk(c, e);
    net := Deployed(Protected(c), project);
    assert Declares(e, project, NETWORK, net);
    forall m | Present(c, m) ensures OnNetwork(c, project, m, net) {
      assert AttachedBy(c, project, m, NETWORK, net);
    }
  }

  lemma MembersShare(c: Compose, project: string, m: string)
    requires Isolated(c) && m in MEMBERS
    ensures SharesWithProxy(c, project, m)
  {
    var net := ProtectedIsDeclared(c, project);
    MemberShares(c, project, m, net);
  }

  lemma MemberShares(c: Compose, project: string, m: string, net: string)
    requires OnNetwork(c, project, m, net) && OnNetwork(c, project, PROXY, net)
    ensures SharesWithProxy(c, project, m)
  {
    assert NextToProxy(c, project, m);
    assert InNamespaceOf(c, m, m, [m]);
  }

  lemma NextToProxyIsMember(c: Compose, project: string, owner: string)
    requires Isolated(c) && NextToProxy(c, project, owner)
    ensures owner in MEMBERS
  {
    if owner != PROXY {
      var net :| OnNetwork(c, project, owner, net) && OnNetwork(c, project, PROXY, net);
      ProxyNetwork(c, project, net);
      OnProtectedIsMember(c, project, owner, net);
    }
  }

  lemma OwnedByMember(c: Compose, project: string, s: string, owner: string, names: seq<string>)
    requires Isolated(c) && InNamespaceOf(c, s, owner, names) && NextToProxy(c, project, owner)
    ensures s in MEMBERS
  {
    NextToProxyIsMember(c, project, owner);
    OwnerIsMember(c, s, owner, names);
  }

  lemma OwnerIsMember(c: Compose, s: string, owner: string, names: seq<string>)
    requires Isolated(c) && InNamespaceOf(c, s, owner, names) && owner in MEMBERS
    ensures s in MEMBERS
  {
    NoChainToMember(c, names);
    if |names| == 1 {
      OneName(c, s, owner, names);
    }
  }

  lemma OneName(c: Compose, s: string, owner: string, names: seq<string>)
    requires InNamespaceOf(c, s, owner, names) && |names| == 1
    ensures s == owner
  {
  }

  lemma SharesIsMember(c: Compose, project: string, s: string)
    requires Isolated(c) && SharesWithProxy(c, project, s)
    ensures s in MEMBERS
  {
    forall owner, names | InNamespaceOf(c, s, owner, names) && NextToProxy(c, project, owner) ensures s in MEMBERS {
      OwnedByMember(c, project, s, owner, names);
    }
  }

  /** When the check reports nothing, then whatever the project is called at deploy
      time, the services that share a network namespace or a Docker network with the
      proxy, through `service:` chains of any length and networks under any key, are
      exactly the proxy and the updater. */
  lemma OnlyUpdaterSharesWithProxy(c: Compose, project: string, s: string)
    requires Accepted(c)
    ensures SharesWithProxy(c, project, s) <==> s in MEMBERS
  {
    AcceptedIsIsolated(c);
    if s in MEMBERS {
      MembersShare(c, project, s);
    } else if SharesWithProxy(c, project, s) {
      SharesIsMember(c, project, s);
    }
  }

  // ----- a file that is accepted --------------------------------------------

  const WEB := "web"

  /** A service with these networks, and a network only containers can reach. */
  function OnNetworks(networks: seq<Yaml>): Yaml { Object([Entry("networks", List(networks))]) }

  const INTERNAL := Object([Entry("internal", Bool(true))])

  /** The two members, and one service more on the default network. */
  const SMALL_FILE := Compose(
    Undefined,
    [Entry(PROXY, OnNetworks([Str(NETWORK)])),
     Entry(UPDATER, OnNetworks([Str("default"), Str(NETWORK)])),
     Entry(WEB, OnNetworks([Str("default")]))],
    [Entry(NETWORK, INTERNAL)])

  lemma LookupThree(a: Entry, b: Entry, c: Entry)
    requires a.key != b.key && a.key != c.key && b.key != c.key
    ensures Lookup([a, b, c], a.key) == a.value && Lookup([a, b, c], b.key) == b.value &&
            Lookup([a, b, c], c.key) == c.value
  {
    assert [a, b, c][1..] == [b, c] && [b, c][1..] == [c];
    assert Lookup([b, c], b.key) == b.value && Lookup([c], c.key) == c.value;
  }

  /** A service with nothing but networks, on keys without a dollar sign. */
  lemma PlainService(services: seq<Entry>, e: Entry, networks: seq<Yaml>)
    requires e.value == OnNetworks(networks) && Lookup(services, e.key) == e.value
    requires forall n | n in networks :: n.Str? && '$' !in n.text
    ensures ServiceReport(services, e) == [] && |Attached(e.value)| == |networks|
    ensures forall i | 0 <= i < |networks| :: Attached(e.value)[i] == networks[i].text
    ensures forall key | key != "networks" :: Field(e.value, key) == Undefined
  {
    assert e.value.entries[1..] == [];
    forall k | k in Attached(e.value)
      ensures '$' !in k
    {
      var i :| 0 <= i < |networks| && Attached(e.value)[i] == k;
      assert networks[i] in networks;
    }
  }

  lemma ReportThree(services: seq<Entry>, a: Entry, b: Entry, c: Entry)
    requires ServiceReport(services, a) == [] && ServiceReport(services, b) == [] && ServiceReport(services, c) == []
    ensures ServicesReport(services, [a, b, c]) == []
  {
    assert [a, b, c][..2] == [a, b] && [a, b][..1] == [a] && [a][..0] == [];
    assert ServicesReport(services, [a]) == [] && ServicesReport(services, [a, b]) == [];
  }

  lemma MembersThree(aliases: set<string>, a: Entry, b: Entry, c: Entry)
    requires Joins(aliases, a) && Joins(aliases, b) && !Joins(aliases, c)
    ensures Members(aliases, [a, b, c]) == [a.key, b.key]
  {
    assert [a, b, c][..2] == [a, b] && [a, b][..1] == [a] && [a][..0] == [];
    assert Members(aliases, [a]) == [a.key] && Members(aliases, [a, b]) == [a.key, b.key];
  }

  /** Two networks whose names differ and are no one's but their keys'. */
  lemma NamesTwo(a: Entry, b: Entry)
    requires !NameUnknown(a) && !NameUnknown(b)
    ensures NameReport([a, b]) == []
  {
    assert [a, b][..1] == [a] && [a][..0] == [];
    assert NameReport([a]) == [];
  }

  lemma AliasesTwo(protected: NetworkName, a: Entry, b: Entry)
    requires !Alias(protected, a) && !Alias(protected, b)
    ensures AliasReport(protected, [a, b]) == [] && Aliases(protected, [a, b]) == {NETWORK}
  {
    assert [a, b][..1] == [a] && [a][..0] == [];
    assert AliasReport(protected, [a]) == [];
  }

  /** The names are told apart by their lengths. */
  lemma NamesDiffer()
    ensures PROXY != UPDATER && PROXY != WEB && UPDATER != WEB && NETWORK != "default"
    ensures '$' !in NETWORK && '$' !in "default" && WEB !in MEMBERS
  {
    assert |PROXY| == 19 && |UPDATER| == 7 && |WEB| == 3 && |NETWORK| == 12;
  }

  lemma SmallNetworks(declared: seq<Entry>)
    requires declared == [Entry(NETWORK, INTERNAL)]
    ensures WithDefault(declared) == [Entry("default", Null), Entry(NETWORK, INTERNAL)]
    ensures Lookup(WithDefault(declared), NETWORK) == INTERNAL && DistinctKeys(declared)
  {
    NamesDiffer();
    var networks := [Entry("default", Null), Entry(NETWORK, INTERNAL)];
    assert !Has(declared, "default");
    assert networks[1..] == [Entry(NETWORK, INTERNAL)] && Lookup(networks[1..], NETWORK) == INTERNAL;
  }

  lemma SmallNames()
    ensures Field(INTERNAL, "internal") == Bool(true)
    ensures NameOf(NETWORK, INTERNAL) == Scoped(NETWORK) && NameOf("default", Null) == Scoped("default")
  {
    assert INTERNAL.entries[1..] == [];
  }

  lemma SmallNetworkReports(networks: seq<Entry>)
    requires networks == [Entry("default", Null), Entry(NETWORK, INTERNAL)]
    ensures NameReport(networks) == [] && AliasReport(Scoped(NETWORK), networks) == []
    ensures Aliases(Scoped(NETWORK), networks) == {NETWORK}
  {
    NamesDiffer();
    SmallNames();
    NamesTwo(Entry("default", Null), Entry(NETWORK, INTERNAL));
    AliasesTwo(Scoped(NETWORK), Entry("default", Null), Entry(NETWORK, INTERNAL));
  }

  /** What the entries of the three services come to. */
  lemma ThreeServices(a: Entry, b: Entry, c: Entry)
    requires a == Entry(PROXY, OnNetworks([Str(NETWORK)])) &&
             b == Entry(UPDATER, OnNetworks([Str("default"), Str(NETWORK)]))
    requires c == Entry(WEB, OnNetworks([Str("default")]))
    ensures ServicesReport([a, b, c], [a, b, c]) == [] && Members({NETWORK}, [a, b, c]) == MEMBERS
  {
    NamesDiffer();
    LookupThree(a, b, c);
    PlainService([a, b, c], a, [Str(NETWORK)]);
    PlainService([a, b, c], b, [Str("default"), Str(NETWORK)]);
    PlainService([a, b, c], c, [Str("default")]);
    ReportThree([a, b, c], a, b, c);
    assert Attached(a.value)[0] == NETWORK && Attached(b.value)[1] == NETWORK && Attached(c.value) == ["default"];
    MembersThree({NETWORK}, a, b, c);
  }

  /** What the two members' own entries come to. */
  lemma PlainProxy(services: seq<Entry>)
    requires Lookup(services, PROXY) == OnNetworks([Str(NETWORK)])
    ensures ProxyReport(services) == [] && ContainerReport(services, PROXY) == []
  {
    NamesDiffer();
    PlainService(services, Entry(PROXY, Lookup(services, PROXY)), [Str(NETWORK)]);
    assert Attached(Lookup(services, PROXY)) == [NETWORK];
  }

  lemma PlainUpdater(services: seq<Entry>)
    requires Lookup(services, UPDATER) == OnNetworks([Str("default"), Str(NETWORK)])
    ensures UpdaterReport(services) == [] && ContainerReport(services, UPDATER) == []
  {
    NamesDiffer();
    PlainService(services, Entry(UPDATER, Lookup(services, UPDATER)), [Str("default"), Str(NETWORK)]);
    assert Attached(Lookup(services, UPDATER))[0] == "default" && Attached(Lookup(services, UPDATER))[1] == NETWORK;
  }

  /** Whether there is nothing to report of the services, or of the networks. */
  ghost predicate ServicesFine(services: seq<Entry>) {
    && ServicesReport(services, services) == [] && ProxyReport(services) == [] && UpdaterReport(services) == []
    && ContainerReport(services, PROXY) == [] && ContainerReport(services, UPDATER) == []
    && MembersReport(Members({NETWORK}, services)) == []
  }

  ghost predicate NetworksFine(networks: seq<Entry>, protected: NetworkName) {
    && protected == NameOf(NETWORK, Lookup(networks, NETWORK))
    && Field(Lookup(networks, NETWORK), "internal") == Bool(true)
    && NameReport(networks) == [] && AliasReport(protected, networks) == [] && Aliases(protected, networks) == {NETWORK}
  }

  lemma NothingToReport(c: Compose, protected: NetworkName)
    requires c.includes == Undefined && ServicesFine(c.services) && NetworksFine(WithDefault(c.networks), protected)
    ensures Report(c) == []
  {
  }

  lemma SmallMembers()
    ensures MembersReport(MEMBERS) == []
  {
    NamesDiffer();
    assert MEMBERS[..1] == [PROXY] && MEMBERS[..1][..0] == [] && Unique([PROXY]) == [PROXY];
    assert Unique(MEMBERS) == MEMBERS;
  }

  lemma ServicesAreFine(a: Entry, b: Entry, c: Entry)
    requires a == Entry(PROXY, OnNetworks([Str(NETWORK)])) &&
             b == Entry(UPDATER, OnNetworks([Str("default"), Str(NETWORK)]))
    requires c == Entry(WEB, OnNetworks([Str("default")]))
    ensures ServicesFine([a, b, c]) && DistinctKeys([a, b, c])
  {
    NamesDiffer();
    LookupThree(a, b, c);
    ThreeServices(a, b, c);
    PlainProxy([a, b, c]);
    PlainUpdater([a, b, c]);
    SmallMembers();
  }

  lemma NetworksAreFine(declared: seq<Entry>)
    requires declared == [Entry(NETWORK, INTERNAL)]
    ensures NetworksFine(WithDefault(declared), Scoped(NETWORK)) && DistinctKeys(declared)
  {
    SmallNetworks(declared);
    SmallNames();
    SmallNetworkReports(WithDefault(declared));
  }

  /** The condition of the theorem can be met, with a service that is no member. */
  lemma SmallFileIsAccepted()
    ensures Accepted(SMALL_FILE) && SMALL_FILE.services[2].key !in MEMBERS
  {
    NamesDiffer();
    ServicesAreFine(SMALL_FILE.services[0], SMALL_FILE.services[1], SMALL_FILE.services[2]);
    NetworksAreFine(SMALL_FILE.networks);
    NothingToReport(SMALL_FILE, Scoped(NETWORK));
  }
}
