/** scripts/check-docker-proxy-network.ts: who can reach the Docker socket proxy,
    read off a compose file. An empty report means that whatever the project is
    called, only the proxy and the updater share a namespace or a network with the
    proxy. */
module DockerProxyNetwork {
  import opened Basics
  import opened ComposeFile

  const NETWORK := "docker-proxy"
  const PROXY := "docker-socket-proxy"
  const UPDATER := "updater"
  const MEMBERS := [PROXY, UPDATER]

  datatype Compose = Compose(includes: Yaml, services: seq<Entry>, networks: seq<Entry>)

  datatype Violation =
    | UsesInclude
    | NotInternal
    | InterpolatedNetwork(key: string)
    | SameNetworkAs(key: string)
    | UsesExtends(name: string)
    | InterpolatedAttachment(name: string)
    | ModeNotLiteral(name: string)
    | ModeHost(name: string)
    | ModeUnsupported(name: string)
    | ModeContainer(name: string)
    | JoinsMember(name: string)
    | ChainCycles(name: string)
    | InterpolatedContainer(member: string)
    | NoService(member: string)
    | SetsMode(member: string)
    | WrongNetworks(member: string)
    | PublishesPort
    | WrongMembers(members: seq<string>)

  // ----- network namespaces -------------------------------------------------

  function ModeOf(services: seq<Entry>, name: string): Yaml {
    Field(Lookup(services, name), "network_mode")
  }

  const SERVICE := "service:"

  /** The service whose namespace `name` joins, when its mode is `service:...`. */
  function Link(services: seq<Entry>, name: string): Option<string> {
    var mode := ModeOf(services, name);
    if mode.Str? && StartsWith(mode.text, SERVICE) then Some(Trim(mode.text[|SERVICE|..])) else None
  }

  function KeySet(services: seq<Entry>): set<string> {
    set e | e in services :: e.key
  }

  lemma LinkIsDeclared(services: seq<Entry>, name: string)
    requires Link(services, name).Some?
    ensures name in KeySet(services)
  {
    assert Entry(name, Lookup(services, name)) in services;
  }

  /** What a walk along `service:` modes comes to. */
  datatype Walk = Reaches | Leaves | Cycles

  function WalkFrom(services: seq<Entry>, seen: set<string>, hop: string): Walk
    decreases |KeySet(services) - seen|
  {
    if hop in seen then Cycles
    else if hop in MEMBERS then Reaches
    else
      match Link(services, hop)
      case None => Leaves
      case Some(next) =>
        LinkIsDeclared(services, hop);
        assert KeySet(services) - (seen + {hop}) < KeySet(services) - seen by { assert hop in KeySet(services) - seen; }
        FewerLeft(KeySet(services) - (seen + {hop}), KeySet(services) - seen);
        WalkFrom(services, seen + {hop}, next)
  }

  lemma FewerLeft(a: set<string>, b: set<string>)
    requires a < b
    ensures |a| < |b|
  {
    var x :| x in b && x !in a;
    assert |b - {x}| == |b| - 1;
    assert a <= b - {x};
    Smaller(a, b - {x});
  }

  lemma {:induction false} Smaller(a: set<string>, b: set<string>)
    requires a <= b
    ensures |a| <= |b|
    decreases a
  {
    if a != {} {
      var x :| x in a;
      Smaller(a - {x}, b - {x});
    }
  }

  /** Whether `names` follow one another's `service:` modes. */
  ghost predicate IsChain(services: seq<Entry>, names: seq<string>) {
    && names != []
    && forall i | 0 <= i < |names| - 1 :: LinksTo(services, names, i)
  }

  ghost predicate LinksTo(services: seq<Entry>, names: seq<string>, i: nat)
    requires i + 1 < |names|
  {
    Link(services, names[i]) == Some(names[i + 1])
  }

  function Last(names: seq<string>): string
    requires names != []
  {
    names[|names| - 1]
  }

  /** A chain from `name` to a member. */
  ghost predicate ToMember(services: seq<Entry>, name: string, names: seq<string>) {
    IsChain(services, names) && names[0] == name && Last(names) in MEMBERS
  }

  /** A chain from `name` that ends outside, without a member on it. */
  ghost predicate ToOutside(services: seq<Entry>, name: string, names: seq<string>) {
    && IsChain(services, names) && names[0] == name
    && Link(services, Last(names)) == None && forall n | n in names :: n !in MEMBERS
  }

  /** A chain from `name` that comes back to itself, without a member on it. */
  ghost predicate Loops(services: seq<Entry>, name: string, names: seq<string>) {
    && IsChain(services, names) && |names| > 1 && names[0] == name
    && Last(names) in names[..|names| - 1] && forall n | n in names :: n !in MEMBERS
  }

  lemma Extends(services: seq<Entry>, names: seq<string>, next: string)
    requires IsChain(services, names) && Link(services, Last(names)) == Some(next)
    ensures IsChain(services, names + [next])
  {
    forall i | 0 <= i < |names| ensures LinksTo(services, names + [next], i) {
      if i < |names| - 1 {
        assert LinksTo(services, names, i);
      }
    }
  }

  /** The walk follows the chain it has seen so far: `names` up to `hop`. */
  lemma {:induction false} WalkFollows(
    services: seq<Entry>, name: string, names: seq<string>, seen: set<string>, hop: string)
    returns (found: seq<string>)
    requires IsChain(services, names + [hop]) && names != [] && names[0] == name
    requires (forall n | n in names :: n !in MEMBERS) && (forall n :: n in seen <==> n in names)
    ensures match WalkFrom(services, seen, hop)
            case Reaches => ToMember(services, name, found)
            case Leaves => ToOutside(services, name, found)
            case Cycles => Loops(services, name, found)
    decreases |KeySet(services) - seen|
  {
    found := names + [hop];
    if hop in seen {
      assert found[..|found| - 1] == names;
    } else if hop !in MEMBERS && Link(services, hop).Some? {
      var next := Link(services, hop).value;
      LinkIsDeclared(services, hop);
      assert KeySet(services) - (seen + {hop}) < KeySet(services) - seen by { assert hop in KeySet(services) - seen; }
      FewerLeft(KeySet(services) - (seen + {hop}), KeySet(services) - seen);
      Extends(services, found, next);
      found := WalkFollows(services, name, found, seen + {hop}, next);
    }
  }

  /** A chain that starts where another begins never leaves one that has an end. */
  lemma {:induction false} StaysOnChain(services: seq<Entry>, a: seq<string>, b: seq<string>, k: nat)
    requires IsChain(services, a) && IsChain(services, b) && a[0] == b[0] && Link(services, Last(b)) == None
    requires k < |a|
    ensures k < |b| && a[k] == b[k]
  {
    if k > 0 {
      StaysOnChain(services, a, b, k - 1);
      assert LinksTo(services, a, k - 1);
      assert LinksTo(services, b, k - 1);
    }
  }

  /** A chain that starts where a loop does stays on the loop. */
  lemma {:induction false} StaysOnLoop(services: seq<Entry>, name: string, loop: seq<string>, b: seq<string>, k: nat)
    requires Loops(services, name, loop) && IsChain(services, b) && b[0] == name && k < |b|
    ensures b[k] in loop && Link(services, b[k]).Some?
  {
    if k == 0 {
      assert LinksTo(services, loop, 0);
    } else {
      StaysOnLoop(services, name, loop, b, k - 1);
      assert LinksTo(services, b, k - 1);
      OnLoopLinks(services, name, loop, b[k - 1]);
      OnLoopLinks(services, name, loop, b[k]);
    }
  }

  lemma OnLoopLinks(services: seq<Entry>, name: string, loop: seq<string>, x: string)
    requires Loops(services, name, loop) && x in loop
    ensures Link(services, x).Some? && Link(services, x).value in loop
  {
    var front := loop[..|loop| - 1];
    var at := if x == Last(loop) then IndexIn(front, x) else IndexIn(loop, x);
    assert loop[at] == x && at < |loop| - 1;
    assert LinksTo(services, loop, at);
  }

  ghost function IndexIn(names: seq<string>, x: string): (i: nat)
    requires x in names
    ensures i < |names| && names[i] == x
  {
    var i :| 0 <= i < |names| && names[i] == x;
    i
  }

  /** At most one of the three can be. */
  lemma OneOfThree(services: seq<Entry>, name: string, a: seq<string>, b: seq<string>)
    ensures !(ToMember(services, name, a) && ToOutside(services, name, b))
    ensures !(Loops(services, name, a) && (ToMember(services, name, b) || ToOutside(services, name, b)))
  {
    if ToMember(services, name, a) && ToOutside(services, name, b) {
      StaysOnChain(services, a, b, |a| - 1);
    }
    if Loops(services, name, a) && (ToMember(services, name, b) || ToOutside(services, name, b)) {
      StaysOnLoop(services, name, a, b, |b| - 1);
    }
  }

  /** The walk from a service's own mode is right whatever the services are: it ends,
      and it tells apart the chains that reach a member, that end elsewhere and that
      never end. */
  lemma WalkIsRight(services: seq<Entry>, name: string)
    requires name !in MEMBERS && Link(services, name).Some?
    ensures var walk := WalkFrom(services, {name}, Link(services, name).value);
            && (walk.Reaches? <==> exists names :: ToMember(services, name, names))
            && (walk.Leaves? <==> exists names :: ToOutside(services, name, names))
            && (walk.Cycles? <==> exists names :: Loops(services, name, names))
  {
    var hop := Link(services, name).value;
    Extends(services, [name], hop);
    var found := WalkFollows(services, name, [name], {name}, hop);
    forall a, b
      ensures !(ToMember(services, name, a) && ToOutside(services, name, b))
      ensures !(Loops(services, name, a) && ToMember(services, name, b))
      ensures !(Loops(services, name, a) && ToOutside(services, name, b))
    {
      OneOfThree(services, name, a, b);
    }
  }

  const OWN_NAMESPACE := ["none", "bridge", "default"]

  /** The target of a mode `kind:target`, as the check reads it. */
  function Target(mode: string): string { Trim(UpTo(Past(mode, ':'), ':')) }

  /** Whether `target` may be the container of member `m`. */
  predicate MayBeContainer(services: seq<Entry>, target: string, m: string) {
    Field(Lookup(services, m), "container_name") == Str(target) || Includes(target, m)
  }

  function ModeVerdict(services: seq<Entry>, name: string): Option<Violation> {
    var mode := ModeOf(services, name);
    if mode.Undefined? then None
    else if !mode.Str? || Interpolated(mode) then Some(ModeNotLiteral(name))
    else if mode.text == "host" then Some(ModeHost(name))
    else if mode.text in OWN_NAMESPACE then None
    else
      var kind, target := UpTo(mode.text, ':'), Target(mode.text);
      if kind == "container" then
        if MayBeContainer(services, target, PROXY) || MayBeContainer(services, target, UPDATER)
          then Some(JoinsMember(name))
        else Some(ModeContainer(name))
      else if kind != "service" then Some(ModeUnsupported(name))
      else
        match WalkFrom(services, {name}, target)
        case Reaches => Some(JoinsMember(name))
        case Leaves => None
        case Cycles => Some(ChainCycles(name))
  }

  /** The walk, hop by hop. */
  method NetworkModeViolation(name: string, services: seq<Entry>) returns (r: Option<Violation>)
    ensures r == ModeVerdict(services, name)
  {
    var mode := ModeOf(services, name);
    if mode.Undefined? {
      return None;
    }
    if !mode.Str? || Interpolated(mode) {
      return Some(ModeNotLiteral(name));
    }
    if mode.text == "host" {
      return Some(ModeHost(name));
    }
    if mode.text in OWN_NAMESPACE {
      return None;
    }
    var kind, target := UpTo(mode.text, ':'), Target(mode.text);
    if kind == "container" {
      var member := MayBeContainer(services, target, PROXY) || MayBeContainer(services, target, UPDATER);
      return Some(if member then JoinsMember(name) else ModeContainer(name));
    }
    if kind != "service" {
      return Some(ModeUnsupported(name));
    }
    var seen, hop := {name}, target;
    while hop !in seen
      invariant WalkFrom(services, seen, hop) == WalkFrom(services, {name}, target)
      decreases KeySet(services) - seen
    {
      if hop in MEMBERS {
        return Some(JoinsMember(name));
      }
      var next := ModeOf(services, hop);
      if !next.Str? || !StartsWith(next.text, SERVICE) {
        return None;
      }
      LinkIsDeclared(services, hop);
      seen := seen + {hop};
      hop := Trim(next.text[|SERVICE|..]);
    }
    return Some(ChainCycles(name));
  }

  lemma {:induction false} UpToFirst(s: string, c: char, k: nat)
    requires k < |s| && s[k] == c && c !in s[..k]
    ensures UpTo(s, c) == s[..k]
  {
    if k > 0 {
      assert s[0] in s[..k] && s[1..][..k - 1] == s[..k][1..];
      UpToFirst(s[1..], c, k - 1);
    }
  }

  lemma {:induction false} UpToEnd(s: string, c: char)
    requires c !in s
    ensures UpTo(s, c) == s
  {
    if s != "" {
      UpToEnd(s[1..], c);
    }
  }

  lemma {:induction false} TrimStartKeeps(s: string, c: char)
    requires c in s && !IsSpace(c)
    ensures c in TrimStart(s, IsSpace)
  {
    if IsSpace(s[0]) {
      TrimStartKeeps(s[1..], c);
    }
  }

  lemma {:induction false} TrimEndKeeps(s: string, c: char)
    requires c in s && !IsSpace(c)
    ensures c in TrimEnd(s, IsSpace)
  {
    if IsSpace(s[|s| - 1]) {
      assert s == s[..|s| - 1] + [s[|s| - 1]];
      TrimEndKeeps(s[..|s| - 1], c);
    }
  }

  lemma TrimKeeps(s: string, c: char)
    requires c in s && !IsSpace(c)
    ensures c in Trim(s)
  {
    TrimStartKeeps(s, c);
    TrimEndKeeps(TrimStart(s, IsSpace), c);
  }

  lemma {:induction false} TrimStartAdds(s: string, c: char)
    requires c in TrimStart(s, IsSpace)
    ensures c in s
  {
    if s != "" && IsSpace(s[0]) {
      TrimStartAdds(s[1..], c);
    }
  }

  lemma {:induction false} TrimEndAdds(s: string, c: char)
    requires c in TrimEnd(s, IsSpace)
    ensures c in s
  {
    if s != "" && IsSpace(s[|s| - 1]) {
      TrimEndAdds(s[..|s| - 1], c);
    }
  }

  /** How the check takes a `service:` mode apart. */
  lemma ServiceMode(mode: string)
    requires StartsWith(mode, SERVICE)
    ensures UpTo(mode, ':') == "service" && Target(mode) == Trim(UpTo(mode[|SERVICE|..], ':'))
  {
    assert mode[7] == SERVICE[7] by { assert mode[..8][7] == SERVICE[7]; }
    assert mode[..7] == "service" by { assert mode[..7] == mode[..8][..7]; }
    UpToFirst(mode, ':', 7);
  }

  /** The name it goes on with is the one the mode gives exactly when that has no
      colon. */
  lemma TargetIsName(rest: string)
    ensures Trim(UpTo(rest, ':')) == Trim(rest) <==> ':' !in rest
  {
    if ':' in rest {
      TrimKeeps(rest, ':');
      var head := UpTo(rest, ':');
      if ':' in Trim(head) {
        TrimEndAdds(TrimStart(head, IsSpace), ':');
        TrimStartAdds(head, ':');
      }
    } else {
      UpToEnd(rest, ':');
    }
  }

  /** Whether the verdict says what following the chain of modes comes to. */
  ghost predicate VerdictRight(services: seq<Entry>, name: string) {
    && (ModeVerdict(services, name) == Some(JoinsMember(name)) <==> exists names :: ToMember(services, name, names))
    && (ModeVerdict(services, name) == None <==> exists names :: ToOutside(services, name, names))
    && (ModeVerdict(services, name) == Some(ChainCycles(name)) <==> exists names :: Loops(services, name, names))
  }

  /** It does on a mode `service:<name>`, whatever the services are, if the name has no
      colon. */
  lemma ModeVerdictIsRight(services: seq<Entry>, name: string)
    requires name !in MEMBERS && Link(services, name).Some? && !Interpolated(ModeOf(services, name))
    requires ':' !in ModeOf(services, name).text[|SERVICE|..]
    ensures VerdictRight(services, name)
  {
    var mode := ModeOf(services, name).text;
    NotOwn(mode);
    ServiceMode(mode);
    TargetIsName(mode[|SERVICE|..]);
    WalkIsRight(services, name);
  }

  function Joining(rest: string): Yaml { Object([Entry("network_mode", Str("service:" + rest))]) }

  lemma JoiningLinks(services: seq<Entry>, name: string, rest: string)
    requires Lookup(services, name) == Joining(rest)
    ensures Link(services, name) == Some(Trim(rest)) && ModeOf(services, name) == Str("service:" + rest)
  {
    var mode := "service:" + rest;
    assert mode[..8] == SERVICE && mode[8..] == rest;
    assert Field(Joining(rest), "network_mode") == Str(mode);
  }

  /** The verdict on a service whose mode is `service:` and a text. */
  lemma JoiningVerdict(services: seq<Entry>, name: string, rest: string)
    requires Lookup(services, name) == Joining(rest) && '$' !in rest
    ensures ModeVerdict(services, name) ==
            match WalkFrom(services, {name}, Trim(UpTo(rest, ':')))
            case Reaches => Some(JoinsMember(name))
            case Leaves => None
            case Cycles => Some(ChainCycles(name))
  {
    JoiningLinks(services, name, rest);
    LiteralMode(rest);
    NotOwn("service:" + rest);
    ServiceMode("service:" + rest);
  }

  lemma LiteralMode(rest: string)
    requires '$' !in rest
    ensures '$' !in "service:" + rest && StartsWith("service:" + rest, SERVICE) &&
            ("service:" + rest)[|SERVICE|..] == rest
  {
    var mode := "service:" + rest;
    assert mode[..8] == SERVICE && mode[8..] == rest;
    assert '$' !in SERVICE;
  }

  lemma UpdaterText()
    ensures Trim(UPDATER) == UPDATER == UpTo(UPDATER, ':') && '$' !in UPDATER
  {
    UpToEnd(UPDATER, ':');
  }

  lemma TwoLinks(services: seq<Entry>, a: string, b: string, c: string)
    requires Link(services, a) == Some(b) && Link(services, b) == Some(c) && c in MEMBERS
    ensures ToMember(services, a, [a, b, c])
  {
    assert LinksTo(services, [a, b, c], 0) && LinksTo(services, [a, b, c], 1);
  }

  lemma OneLink(services: seq<Entry>, a: string, b: string)
    requires Link(services, a) == Some(b) && Link(services, b) == None && a !in MEMBERS && b !in MEMBERS
    ensures ToOutside(services, a, [a, b])
  {
    assert LinksTo(services, [a, b], 0);
  }

  /** A colon in the name: the walk goes on with the part before it. When that is no
      service, it misses the member that the chain of the whole name leads to. (The
      service on the way is still reported.) */
  lemma ColonCutsChain(services: seq<Entry>, a: string, rest: string, named: string)
    requires ':' in rest && '$' !in rest && named == Trim(rest) && Trim(UpTo(rest, ':')) !in MEMBERS
    requires a != named && a != Trim(UpTo(rest, ':')) && a !in MEMBERS
    requires services == [Entry(a, Joining(rest)), Entry(named, Joining(UPDATER))]
    ensures ModeVerdict(services, a) == None && ToMember(services, a, [a, named, UPDATER])
    ensures ModeVerdict(services, named) == Some(JoinsMember(named))
  {
    var part := Trim(UpTo(rest, ':'));
    TwoLookups(services, services[0], services[1]);
    TargetIsName(rest);
    TrimKeeps(rest, ':');
    MembersHaveNoColon();
    JoiningVerdict(services, a, rest);
    LeavesAtOnce(services, a, part);
    JoiningLinks(services, a, rest);
    JoinsUpdater(services, named);
    TwoLinks(services, a, named, UPDATER);
  }

  lemma LeavesAtOnce(services: seq<Entry>, a: string, b: string)
    requires Lookup(services, b) == Undefined && a != b && b !in MEMBERS
    ensures WalkFrom(services, {a}, b) == Leaves
  {
  }

  lemma JoinsUpdater(services: seq<Entry>, name: string)
    requires Lookup(services, name) == Joining(UPDATER) && name !in MEMBERS
    ensures Link(services, name) == Some(UPDATER) && ModeVerdict(services, name) == Some(JoinsMember(name))
  {
    UpdaterText();
    JoiningLinks(services, name, UPDATER);
    JoiningVerdict(services, name, UPDATER);
    assert WalkFrom(services, {name}, UPDATER) == Reaches;
  }

  /** When the part before the colon is a member, the walk reports a chain that leads
      elsewhere. */
  lemma ColonFeignsChain(services: seq<Entry>, a: string, rest: string, named: string)
    requires ':' in rest && '$' !in rest && named == Trim(rest) && Trim(UpTo(rest, ':')) in MEMBERS
    requires a != named && a !in MEMBERS && services == [Entry(a, Joining(rest))]
    ensures ModeVerdict(services, a) == Some(JoinsMember(a)) && ToOutside(services, a, [a, named])
  {
    TrimKeeps(rest, ':');
    MembersHaveNoColon();
    assert services[1..] == [];
    JoiningLinks(services, a, rest);
    JoiningVerdict(services, a, rest);
    assert Lookup(services, named) == Undefined;
    OneLink(services, a, named);
  }

  lemma TwoLookups(services: seq<Entry>, a: Entry, b: Entry)
    requires services == [a, b] && a.key != b.key
    ensures Lookup(services, a.key) == a.value && Lookup(services, b.key) == b.value
    ensures forall key | key != a.key && key != b.key :: Lookup(services, key) == Undefined
  {
    assert services[1..] == [b] && [b][1..] == [];
  }

  lemma MembersHaveNoColon()
    ensures forall m | m in MEMBERS :: ':' !in m
  {
  }

  /** A name that is none of two others, and no member's. */
  lemma FreshName(x: string, y: string) returns (a: string)
    ensures a != x && a != y && a !in MEMBERS
  {
    a := x + y + PROXY + "-";
    assert |PROXY| == 19 && |UPDATER| == 7;
  }

  /** The services of a file with this mode at `name`. */
  ghost predicate JoinsBy(services: seq<Entry>, name: string, rest: string) {
    name !in MEMBERS && ModeOf(services, name) == Str("service:" + rest)
  }

  /** The condition is exact: on a literal mode the verdict is right for every file exactly
      when the name has no colon. */
  lemma NoColonIsTheCondition(rest: string)
    requires '$' !in rest
    ensures ':' !in rest <==> forall services, name | JoinsBy(services, name, rest) :: VerdictRight(services, name)
  {
    if ':' in rest {
      var named, part := Trim(rest), Trim(UpTo(rest, ':'));
      var a := FreshName(named, part);
      if part in MEMBERS {
        var services := [Entry(a, Joining(rest))];
        ColonFeignsChain(services, a, rest, named);
        JoiningLinks(services, a, rest);
        assert JoinsBy(services, a, rest) && !VerdictRight(services, a);
      } else {
        var services := [Entry(a, Joining(rest)), Entry(named, Joining(UPDATER))];
        ColonCutsChain(services, a, rest, named);
        JoiningLinks(services, a, rest);
        assert JoinsBy(services, a, rest) && !VerdictRight(services, a);
      }
    } else {
      forall services, name | JoinsBy(services, name, rest)
        ensures VerdictRight(services, name)
      {
        LiteralMode(rest);
        ModeVerdictIsRight(services, name);
      }
    }
  }

  /** No service outside the members joins a member directly without being reported. */
  lemma DirectJoinIsReported(services: seq<Entry>, name: string)
    requires name !in MEMBERS && Link(services, name).Some? && Link(services, name).value in MEMBERS
    ensures ModeVerdict(services, name).Some?
  {
    var mode := ModeOf(services, name).text;
    NotOwn(mode);
    ServiceMode(mode);
    MemberHasNoColon(mode[|SERVICE|..]);
    TargetIsName(mode[|SERVICE|..]);
  }

  lemma MemberHasNoColon(rest: string)
    requires Trim(rest) in MEMBERS
    ensures ':' !in rest
  {
    if ':' in rest {
      TrimKeeps(rest, ':');
    }
  }

  lemma NotOwn(mode: string)
    requires StartsWith(mode, SERVICE)
    ensures mode != "host" && mode !in OWN_NAMESPACE
  {
    assert mode[0] == 's' && mode[7] == ':' by { assert mode[..8][0] == 's' && mode[..8][7] == ':'; }
  }

  // ----- network names ------------------------------------------------------

  /** The Docker network of a key: a fixed name, `<project>_<key>`, or a name only
      known at deploy time. */
  datatype NetworkName = Exact(name: string) | Scoped(key: string) | Unresolved

  function Literal(value: Yaml): NetworkName {
    var name := Text(value);
    if '$' in name then Unresolved else Exact(name)
  }

  function NameOf(key: string, network: Yaml): NetworkName {
    var external := Field(network, "external");
    if Field(network, "name") != Undefined then Literal(Field(network, "name"))
    else if external.Object? && Has(external.entries, "name") then Literal(Field(external, "name"))
    else if external == Bool(true) then Exact(key)
    else Scoped(key)
  }

  predicate SameNetwork(a: NetworkName, b: NetworkName) {
    if a.Unresolved? || b.Unresolved? then true
    else if a.Exact? && b.Exact? then a.name == b.name
    else if a.Scoped? && b.Scoped? then a.key == b.key
    else
      var exact := if a.Exact? then a.name else b.name;
      var scoped := if a.Scoped? then a.key else b.key;
      EndsWith(exact, "_" + scoped)
  }

  /** The network's name once the project has one. */
  function Deployed(n: NetworkName, project: string): string
    requires !n.Unresolved?
  {
    match n
    case Exact(name) => name
    case Scoped(key) => project + "_" + key
  }

  /** Two resolved keys can be the same network exactly when some project makes them
      so. */
  lemma SameNetworkIsExact(a: NetworkName, b: NetworkName)
    requires !a.Unresolved? && !b.Unresolved?
    ensures SameNetwork(a, b) <==> exists project :: Deployed(a, project) == Deployed(b, project)
  {
    if SameNetwork(a, b) {
      if a.Exact? && b.Scoped? {
        ProjectFor(a.name, b.key);
      } else if a.Scoped? && b.Exact? {
        ProjectFor(b.name, a.key);
      } else {
        assert Deployed(a, "") == Deployed(b, "");
      }
    }
    forall project | Deployed(a, project) == Deployed(b, project) ensures SameNetwork(a, b) {
      SameWhenDeployed(a, b, project);
    }
  }

  lemma ProjectFor(exact: string, scoped: string)
    requires EndsWith(exact, "_" + scoped)
    ensures exists project :: Deployed(Exact(exact), project) == Deployed(Scoped(scoped), project)
  {
    var project := exact[..|exact| - |scoped| - 1];
    assert exact == project + ("_" + scoped);
    assert project + "_" + scoped == project + ("_" + scoped);
    assert Deployed(Exact(exact), project) == Deployed(Scoped(scoped), project);
  }

  lemma SameWhenDeployed(a: NetworkName, b: NetworkName, project: string)
    requires !a.Unresolved? && !b.Unresolved? && Deployed(a, project) == Deployed(b, project)
    ensures SameNetwork(a, b)
  {
    if a.Scoped? {
      assert Deployed(a, project)[|project|..] == "_" + a.key;
    }
    if b.Scoped? {
      assert Deployed(b, project)[|project|..] == "_" + b.key;
    }
    if a.Scoped? && b.Scoped? {
      assert a.key == ("_" + a.key)[1..] && b.key == ("_" + b.key)[1..];
    }
  }

  /** `{ default: null, ...networks }`. */
  function WithDefault(networks: seq<Entry>): seq<Entry> {
    if Has(networks, "default") then [Entry("default", Lookup(networks, "default"))] + Others(networks, "default")
    else [Entry("default", Null)] + networks
  }

  function Others(networks: seq<Entry>, key: string): seq<Entry> {
    if networks == [] then []
    else if networks[0].key == key then Others(networks[1..], key)
    else [networks[0]] + Others(networks[1..], key)
  }

  function Attached(service: Yaml): seq<string> {
    var networks := Field(service, "networks");
    if Field(service, "network_mode") != Undefined then []
    else if Absent(networks) then ["default"]
    else if networks.List? then seq(|networks.items|, i requires 0 <= i < |networks.items| => Text(networks.items[i]))
    else if networks.Object? then Keys(networks.entries)
    else [Text(networks)]
  }

  // ----- the report ---------------------------------------------------------

  function When(holds: bool, v: Violation): seq<Violation> {
    if holds then [v] else []
  }

  predicate NameUnknown(e: Entry) { '$' in e.key || NameOf(e.key, e.value).Unresolved? }

  function NameReport(networks: seq<Entry>): seq<Violation> {
    if networks == [] then []
    else
      var e := networks[|networks| - 1];
      NameReport(networks[..|networks| - 1]) + When(NameUnknown(e), InterpolatedNetwork(e.key))
  }

  /** Whether `e` is a second key that is, or may be, the protected network. */
  predicate Alias(protected: NetworkName, e: Entry) {
    e.key != NETWORK && !protected.Unresolved? && SameNetwork(protected, NameOf(e.key, e.value))
  }

  predicate NamedAlias(protected: NetworkName, e: Entry) {
    Alias(protected, e) && !NameOf(e.key, e.value).Unresolved?
  }

  function AliasReport(protected: NetworkName, networks: seq<Entry>): seq<Violation> {
    if networks == [] then []
    else
      var e := networks[|networks| - 1];
      AliasReport(protected, networks[..|networks| - 1]) + When(NamedAlias(protected, e), SameNetworkAs(e.key))
  }

  function Aliases(protected: NetworkName, networks: seq<Entry>): set<string> {
    {NETWORK} + set e | e in networks && Alias(protected, e) :: e.key
  }

  function ServiceReport(services: seq<Entry>, e: Entry): seq<Violation> {
    var verdict := if e.key in MEMBERS then None else ModeVerdict(services, e.key);
    When(Field(e.value, "extends") != Undefined, UsesExtends(e.key))
    + When(exists k | k in Attached(e.value) :: '$' in k, InterpolatedAttachment(e.key))
    + (if verdict.Some? then [verdict.value] else [])
  }

  function ServicesReport(services: seq<Entry>, part: seq<Entry>): seq<Violation> {
    if part == [] then []
    else ServicesReport(services, part[..|part| - 1]) + ServiceReport(services, part[|part| - 1])
  }

  predicate Joins(aliases: set<string>, e: Entry) {
    exists k :: k in Attached(e.value) && k in aliases
  }

  function Members(aliases: set<string>, part: seq<Entry>): seq<string> {
    if part == [] then []
    else
      Members(aliases, part[..|part| - 1]) + (if Joins(aliases, part[|part| - 1]) then [part[|part| - 1].key] else [])
  }

  function ContainerReport(services: seq<Entry>, member: string): seq<Violation> {
    When(Interpolated(Field(Lookup(services, member), "container_name")), InterpolatedContainer(member))
  }

  function ProxyReport(services: seq<Entry>): seq<Violation> {
    var proxy := Lookup(services, PROXY);
    if Absent(proxy) then [NoService(PROXY)]
    else
      When(Field(proxy, "network_mode") != Undefined, SetsMode(PROXY))
      + When(Attached(proxy) != [NETWORK], WrongNetworks(PROXY))
      + When(Field(proxy, "ports") != Undefined, PublishesPort)
  }

  function UpdaterReport(services: seq<Entry>): seq<Violation> {
    var updater := Lookup(services, UPDATER);
    if Absent(updater) then [NoService(UPDATER)]
    else
      When(Field(updater, "network_mode") != Undefined, SetsMode(UPDATER))
      + When("default" !in Attached(updater) || NETWORK !in Attached(updater), WrongNetworks(UPDATER))
  }

  /** The order of JavaScript strings, by code unit. */
  predicate Before(a: string, b: string) {
    b != "" && (a == "" || a[0] < b[0] || (a[0] == b[0] && Before(a[1..], b[1..])))
  }

  function Insert(x: string, xs: seq<string>): seq<string> {
    if xs == [] || !Before(xs[0], x) then [x] + xs else [xs[0]] + Insert(x, xs[1..])
  }

  function Sort(xs: seq<string>): seq<string> {
    if xs == [] then [] else Insert(xs[0], Sort(xs[1..]))
  }

  /** `[...new Set(xs)]`. */
  function Unique(xs: seq<string>): seq<string> {
    if xs == [] then []
    else
      var front := Unique(xs[..|xs| - 1]);
      if xs[|xs| - 1] in front then front else front + [xs[|xs| - 1]]
  }

  function Join(xs: seq<string>): string {
    if xs == [] then "" else if |xs| == 1 then xs[0] else xs[0] + "," + Join(xs[1..])
  }

  function MembersReport(members: seq<string>): seq<Violation> {
    var sorted := Sort(Unique(members));
    When(Join(sorted) != Join(Sort(MEMBERS)), WrongMembers(sorted))
  }

  function Report(c: Compose): seq<Violation> {
    var networks := WithDefault(c.networks);
    var protected := NameOf(NETWORK, Lookup(networks, NETWORK));
    var aliases := Aliases(protected, networks);
    When(c.includes != Undefined, UsesInclude)
    + When(Field(Lookup(networks, NETWORK), "internal") != Bool(true), NotInternal)
    + NameReport(networks)
    + AliasReport(protected, networks)
    + ServicesReport(c.services, c.services)
    + (ContainerReport(c.services, PROXY) + ContainerReport(c.services, UPDATER))
    + ProxyReport(c.services)
    + UpdaterReport(c.services)
    + MembersReport(Members(aliases, c.services))
  }

  method DockerProxyViolations(c: Compose) returns (violations: seq<Violation>)
    ensures violations == Report(c)
  {
    violations := When(c.includes != Undefined, UsesInclude);
    var networks := WithDefault(c.networks);
    violations := violations + When(Field(Lookup(networks, NETWORK), "internal") != Bool(true), NotInternal);
    var names := CheckNames(networks);
    var protected := NameOf(NETWORK, Lookup(networks, NETWORK));
    var aliases, same := CollectAliases(protected, networks);
    var members, perService := CheckServices(c.services, aliases);
    violations := violations + names + same + perService
      + (ContainerReport(c.services, PROXY) + ContainerReport(c.services, UPDATER))
      + ProxyReport(c.services) + UpdaterReport(c.services) + MembersReport(members);
  }

  method CheckNames(networks: seq<Entry>) returns (violations: seq<Violation>)
    ensures violations == NameReport(networks)
  {
    violations := [];
    for i := 0 to |networks|
      invariant violations == NameReport(networks[..i])
    {
      var e := networks[i];
      assert networks[..i + 1][..i] == networks[..i];
      if '$' in e.key || NameOf(e.key, e.value) == Unresolved {
        violations := violations + [InterpolatedNetwork(e.key)];
      }
    }
    assert networks[..|networks|] == networks;
  }

  /** What the loop knows of the networks it has read. */
  ghost predicate Collected(
    protected: NetworkName, part: seq<Entry>, aliases: set<string>, violations: seq<Violation>)
  {
    aliases == Aliases(protected, part) && violations == AliasReport(protected, part)
  }

  lemma CollectedOne(
    protected: NetworkName, part: seq<Entry>, more: seq<Entry>, e: Entry, aliases: set<string>,
    violations: seq<Violation>)
    requires Collected(protected, part, aliases, violations) && more == part + [e]
    ensures Collected(protected, more, if Alias(protected, e) then aliases + {e.key} else aliases,
              violations + When(NamedAlias(protected, e), SameNetworkAs(e.key)))
  {
    assert more[..|part|] == part;
    assert forall x :: x in more <==> x in part || x == e;
  }

  method CollectAliases(
    protected: NetworkName, networks: seq<Entry>)
    returns (aliases: set<string>, violations: seq<Violation>)
    ensures Collected(protected, networks, aliases, violations)
  {
    aliases, violations := {NETWORK}, [];
    for i := 0 to |networks|
      invariant Collected(protected, networks[..i], aliases, violations)
    {
      var e := networks[i];
      CollectedOne(protected, networks[..i], networks[..i + 1], e, aliases, violations);
      if e.key != NETWORK && !protected.Unresolved? {
        var name := NameOf(e.key, e.value);
        if name.Unresolved? {
          aliases := aliases + {e.key};
        } else if SameNetwork(protected, name) {
          aliases := aliases + {e.key};
          violations := violations + [SameNetworkAs(e.key)];
        }
      }
    }
    assert networks[..|networks|] == networks;
  }

  method CheckService(
    services: seq<Entry>, aliases: set<string>, e: Entry)
    returns (joins: bool, violations: seq<Violation>)
    ensures joins == Joins(aliases, e) && violations == ServiceReport(services, e)
  {
    var attached := Attached(e.value);
    violations := When(Field(e.value, "extends") != Undefined, UsesExtends(e.key))
      + When(exists k | k in attached :: '$' in k, InterpolatedAttachment(e.key));
    joins := exists k :: k in attached && k in aliases;
    if e.key !in MEMBERS {
      var violation := NetworkModeViolation(e.key, services);
      if violation.Some? {
        violations := violations + [violation.value];
      }
    }
  }

  /** What the loop knows of the services it has read. */
  ghost predicate Checked(
    services: seq<Entry>, aliases: set<string>, part: seq<Entry>, members: seq<string>, violations: seq<Violation>)
  {
    members == Members(aliases, part) && violations == ServicesReport(services, part)
  }

  lemma CheckedNone(services: seq<Entry>, aliases: set<string>)
    ensures Checked(services, aliases, [], [], [])
  {
  }

  lemma CheckedOne(
    services: seq<Entry>, aliases: set<string>, part: seq<Entry>, more: seq<Entry>, e: Entry, members: seq<string>,
    violations: seq<Violation>)
    requires Checked(services, aliases, part, members, violations) && more == part + [e]
    ensures Checked(services, aliases, more, if Joins(aliases, e) then members + [e.key] else members,
              violations + ServiceReport(services, e))
  {
    assert more[..|part|] == part;
  }

  method CheckServices(
    services: seq<Entry>, aliases: set<string>)
    returns (members: seq<string>, violations: seq<Violation>)
    ensures Checked(services, aliases, services, members, violations)
  {
    members, violations := [], [];
    CheckedNone(services, aliases);
    for i := 0 to |services|
      invariant Checked(services, aliases, services[..i], members, violations)
    {
      var joins, found := CheckService(services, aliases, services[i]);
      CheckedOne(services, aliases, services[..i], services[..i + 1], services[i], members, violations);
      if joins {
        members := members + [services[i].key];
      }
      violations := violations + found;
    }
    assert services[..|services|] == services;
  }
}
