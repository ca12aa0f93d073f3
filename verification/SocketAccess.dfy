/** scripts/docker-socket-access.ts: which services of a compose file can reach the
    Docker socket. An empty report means that none but the proxy can, whatever the
    project is called. */
module SocketAccess {
  import opened Basics
  import opened ComposeFile
  import opened HostPaths
  import ComposeInterpolation

  const PROXY := "docker-socket-proxy"
  const UNSET := ComposeInterpolation.UNSET

  datatype Compose = Compose(services: seq<Entry>, volumes: seq<Entry>, secrets: seq<Entry>, configs: seq<Entry>)

  datatype Violation =
    | GivenFile(name: string, why: Reason)
    | UsesApiSocket(name: string)
    | VolumesNotList(name: string)
    | Mounts(name: string, why: Reason)
    | VolumesFrom(name: string)
    | Inherits(name: string, from: string)

  function Resolved(value: string): string { ComposeInterpolation.Interpolated(value) }

  // ----- volumes ------------------------------------------------------------

  /** The check of a host path given as a value of the file. */
  function HostSource(raw: Yaml): Option<Reason> {
    if !raw.Str? then Some(NotString)
    else if UNSET in Resolved(raw.text) then Some(UnresolvedSource)
    else HostPathViolation(Resolved(raw.text))
  }

  predicate IsExternal(volume: Yaml) {
    var external := Field(volume, "external");
    external != Undefined && external != Bool(false)
  }

  function DeviceOf(volume: Yaml): Yaml { Field(Field(volume, "driver_opts"), "device") }

  function OwnVolumeViolation(volumes: seq<Entry>, key: string): Option<Reason> {
    var volume := Lookup(volumes, key);
    if IsExternal(volume) then Some(External(key))
    else if DeviceOf(volume) == Undefined then None
    else
      match HostSource(DeviceOf(volume))
      case None => None
      case Some(why) => Some(Device(key, why))
  }

  /** The Docker volume of a key: a fixed name, `<project>_<key>`, or one only known
      at deploy time. */
  datatype DockerVolume = Named(name: string) | Scoped(key: string) | Unresolved

  function DockerVolumeOf(volumes: seq<Entry>, key: string): DockerVolume {
    var volume := Lookup(volumes, key);
    var own, legacy := Field(volume, "name"), Field(Field(volume, "external"), "name");
    if Absent(own) && Absent(legacy) then if IsExternal(volume) then Named(key) else Scoped(key)
    else
      var name := Resolved(Text(if Absent(own) then legacy else own));
      if UNSET in name || (!Absent(own) && !Absent(legacy) && Resolved(Text(legacy)) != name) then Unresolved
      else Named(name)
  }

  datatype Sharing = Never | MayBe | Always

  function Shared(a: DockerVolume, b: DockerVolume): Sharing {
    if a.Unresolved? || b.Unresolved? then MayBe
    else if a.Named? && b.Named? then if a.name == b.name then Always else Never
    else if a.Scoped? && b.Scoped? then Never
    else
      var name := if a.Named? then a.name else b.name;
      var key := if a.Scoped? then a.key else b.key;
      if |name| > |key| + 1 && EndsWith(name, "_" + key) then MayBe else Never
  }

  /** Whether mounting `key` may mount the unsafe volume `other`. */
  predicate Clashes(volumes: seq<Entry>, key: string, other: string) {
    && other != key && Shared(DockerVolumeOf(volumes, key), DockerVolumeOf(volumes, other)) != Never
    && OwnVolumeViolation(volumes, other).Some?
  }

  function FirstClash(volumes: seq<Entry>, key: string, part: seq<Entry>): Option<Reason> {
    if part == [] then None
    else if Clashes(volumes, key, part[0].key) then
      Some(SameVolume(key, part[0].key, OwnVolumeViolation(volumes, part[0].key).value))
    else FirstClash(volumes, key, part[1..])
  }

  function NamedVolume(volumes: seq<Entry>, key: string): Option<Reason> {
    var own := OwnVolumeViolation(volumes, key);
    if own.Some? then own else FirstClash(volumes, key, volumes)
  }

  method NamedVolumeViolation(volumes: seq<Entry>, key: string) returns (r: Option<Reason>)
    ensures r == NamedVolume(volumes, key)
  {
    r := OwnVolumeViolation(volumes, key);
    if r.Some? {
      return;
    }
    var volume := DockerVolumeOf(volumes, key);
    for i := 0 to |volumes|
      invariant FirstClash(volumes, key, volumes) == FirstClash(volumes, key, volumes[i..])
    {
      var other := volumes[i].key;
      assert volumes[i..][1..] == volumes[i + 1..];
      if other == key {
        continue;
      }
      if Shared(volume, DockerVolumeOf(volumes, other)) == Never {
        continue;
      }
      var violation := OwnVolumeViolation(volumes, other);
      if violation.None? {
        continue;
      }
      return Some(SameVolume(key, other, violation.value));
    }
    r := None;
  }

  // ----- mounts -------------------------------------------------------------

  predicate IsHostPath(source: string) {
    source != "" && (source[0] == '.' || source[0] == '/' || source[0] == '~')
  }

  /** What a mount mounts, once its text is resolved. */
  datatype Mounted =
    | HostPath(path: string)
    | Volume(key: string)
    | Nothing
    | Refused(why: Reason)

  function TypeOf(entry: Yaml): string {
    var raw := Field(entry, "type");
    if raw.Str? then Resolved(raw.text) else [UNSET]
  }

  function LongSource(raw: Yaml, host: bool): Mounted {
    if !raw.Str? then Refused(NotString)
    else if UNSET in Resolved(raw.text) then Refused(UnresolvedSource)
    else if host then HostPath(Resolved(raw.text))
    else Volume(Resolved(raw.text))
  }

  function MountOf(entry: Yaml): Mounted {
    if entry.Str? then
      var text := Resolved(entry.text);
      if UNSET in text then Refused(UnresolvedSource)
      else if ':' !in text then Nothing
      else if IsHostPath(UpTo(text, ':')) then HostPath(UpTo(text, ':'))
      else Volume(UpTo(text, ':'))
    else if !entry.Object? && !entry.List? then Refused(NotMount)
    else
      var kind := TypeOf(entry);
      if UNSET in kind then Refused(UnresolvedType)
      else if kind == "npipe" then Refused(NamedPipe)
      else if kind == "bind" then LongSource(Field(entry, "source"), true)
      else if kind == "volume" || kind == "cluster" then
        if Field(entry, "source") == Undefined then Nothing else LongSource(Field(entry, "source"), false)
      else if kind == "tmpfs" || kind == "image" then Nothing
      else Refused(UnknownType)
  }

  function MountReason(volumes: seq<Entry>, entry: Yaml): Option<Reason> {
    match MountOf(entry)
    case HostPath(path) => HostPathViolation(path)
    case Volume(key) => NamedVolume(volumes, key)
    case Nothing => None
    case Refused(why) => Some(why)
  }

  method MountViolation(volumes: seq<Entry>, entry: Yaml) returns (r: Option<Reason>)
    ensures r == MountReason(volumes, entry)
  {
    match MountOf(entry)
    case HostPath(path) => r := HostPathViolation(path);
    case Volume(key) => r := NamedVolumeViolation(volumes, key);
    case Nothing => r := None;
    case Refused(why) => r := Some(why);
  }

  // ----- services -----------------------------------------------------------

  function AsList(value: Yaml): seq<Yaml> {
    if Absent(value) then [] else if value.List? then value.items else [value]
  }

  function MountsOf(e: Entry): seq<Yaml> { AsList(Field(e.value, "volumes")) }

  function FromsOf(e: Entry): seq<Yaml> { AsList(Field(e.value, "volumes_from")) }

  const CONTAINER := "container:"

  /** The service a `volumes_from` entry names. */
  function VolumesFromTarget(entry: Yaml): Option<string> {
    if !entry.Str? || '$' in entry.text || StartsWith(entry.text, CONTAINER) then None
    else if EndsWith(entry.text, ":ro") || EndsWith(entry.text, ":rw") then Some(entry.text[..|entry.text| - 3])
    else Some(entry.text)
  }

  function Targets(entries: seq<Yaml>): seq<string> {
    if entries == [] then []
    else
      var n := |entries| - 1;
      Targets(entries[..n]) + (match VolumesFromTarget(entries[n]) case None => [] case Some(t) => [t])
  }

  /** The services whose mounts `e` takes over. */
  function Sources(e: Entry): seq<string> { Targets(FromsOf(e)) }

  function FromReport(name: string, entries: seq<Yaml>): seq<Violation> {
    if entries == [] then []
    else
      var n := |entries| - 1;
      FromReport(name, entries[..n]) + (if VolumesFromTarget(entries[n]).None? then [VolumesFrom(name)] else [])
  }

  function MountReport(volumes: seq<Entry>, name: string, entries: seq<Yaml>): seq<Violation> {
    if entries == [] then []
    else
      var n := |entries| - 1;
      var why := MountReason(volumes, entries[n]);
      MountReport(volumes, name, entries[..n]) + (if why.Some? && name != PROXY then [Mounts(name, why.value)] else [])
  }

  predicate UsesApi(e: Entry) {
    var api := Field(e.value, "use_api_socket");
    e.key != PROXY && api != Undefined && api != Bool(false)
  }

  predicate BadVolumes(e: Entry) {
    var volumes := Field(e.value, "volumes");
    volumes != Undefined && !volumes.List?
  }

  function ServiceReport(volumes: seq<Entry>, e: Entry): seq<Violation> {
    (if UsesApi(e) then [UsesApiSocket(e.key)] else [])
    + (if BadVolumes(e) then [VolumesNotList(e.key)] else [])
    + MountReport(volumes, e.key, MountsOf(e))
    + FromReport(e.key, FromsOf(e))
  }

  function ServicesReport(volumes: seq<Entry>, services: seq<Entry>): seq<Violation> {
    if services == [] then []
    else ServicesReport(volumes, services[..|services| - 1]) + ServiceReport(volumes, services[|services| - 1])
  }

  function FileOf(definition: Yaml): Option<Reason> {
    var file := Field(definition, "file");
    if file == Undefined then None else HostSource(file)
  }

  function FilesReport(definitions: seq<Entry>): seq<Violation> {
    if definitions == [] then []
    else
      var e := definitions[|definitions| - 1];
      FilesReport(definitions[..|definitions| - 1])
      + (if FileOf(e.value).Some? then [GivenFile(e.key, FileOf(e.value).value)] else [])
  }

  predicate HasBadMount(volumes: seq<Entry>, mounts: seq<Yaml>) {
    mounts != [] &&
    (MountReason(volumes, mounts[|mounts| - 1]).Some? || HasBadMount(volumes, mounts[..|mounts| - 1]))
  }

  /** The services that hold the socket, or may, by their own mounts. */
  function Holders(volumes: seq<Entry>, services: seq<Entry>): set<string> {
    if services == [] then {PROXY}
    else
      var e := services[|services| - 1];
      Holders(volumes, services[..|services| - 1]) + (if HasBadMount(volumes, MountsOf(e)) then {e.key} else {})
  }

  method CheckFiles(definitions: seq<Entry>) returns (violations: seq<Violation>)
    ensures violations == FilesReport(definitions)
  {
    violations := [];
    for i := 0 to |definitions|
      invariant violations == FilesReport(definitions[..i])
    {
      assert definitions[..i + 1][..i] == definitions[..i];
      var file := Field(definitions[i].value, "file");
      if file != Undefined {
        var violation := HostSource(file);
        if violation.Some? {
          violations := violations + [GivenFile(definitions[i].key, violation.value)];
        }
      }
    }
    assert definitions[..|definitions|] == definitions;
  }

  method CheckMounts(
    volumes: seq<Entry>, name: string, mounts: seq<Yaml>)
    returns (violations: seq<Violation>, holds: bool)
    ensures violations == MountReport(volumes, name, mounts)
    ensures holds == HasBadMount(volumes, mounts)
  {
    violations, holds := [], false;
    for i := 0 to |mounts|
      invariant violations == MountReport(volumes, name, mounts[..i])
      invariant holds == HasBadMount(volumes, mounts[..i])
    {
      assert mounts[..i + 1][..i] == mounts[..i];
      var violation := MountViolation(volumes, mounts[i]);
      if violation.Some? {
        holds := true;
        if name != PROXY {
          violations := violations + [Mounts(name, violation.value)];
        }
      }
    }
    assert mounts[..|mounts|] == mounts;
  }

  method CheckVolumesFrom(name: string, entries: seq<Yaml>) returns (violations: seq<Violation>, sources: seq<string>)
    ensures violations == FromReport(name, entries) && sources == Targets(entries)
  {
    violations, sources := [], [];
    for i := 0 to |entries|
      invariant violations == FromReport(name, entries[..i]) && sources == Targets(entries[..i])
    {
      assert entries[..i + 1][..i] == entries[..i];
      match VolumesFromTarget(entries[i])
      case None => violations := violations + [VolumesFrom(name)];
      case Some(service) => sources := sources + [service];
    }
    assert entries[..|entries|] == entries;
  }

  datatype Inherit = Inherit(name: string, sources: seq<string>)

  function InheritsOf(services: seq<Entry>): (r: seq<Inherit>)
    ensures |r| == |services| && forall i | 0 <= i < |r| :: r[i] == Inherit(services[i].key, Sources(services[i]))
  {
    seq(|services|, i requires 0 <= i < |services| => Inherit(services[i].key, Sources(services[i])))
  }

  method CheckService(volumes: seq<Entry>, e: Entry) returns (violations: seq<Violation>, holds: bool, inherit: Inherit)
    ensures violations == ServiceReport(volumes, e)
    ensures holds == HasBadMount(volumes, MountsOf(e)) && inherit == Inherit(e.key, Sources(e))
  {
    var mounts, froms, sources;
    mounts, holds := CheckMounts(volumes, e.key, MountsOf(e));
    froms, sources := CheckVolumesFrom(e.key, FromsOf(e));
    violations := (if UsesApi(e) then [UsesApiSocket(e.key)] else [])
      + (if BadVolumes(e) then [VolumesNotList(e.key)] else []) + mounts + froms;
    inherit := Inherit(e.key, sources);
  }

  /** What the loop knows of the services it has read. */
  ghost predicate Checked(
    volumes: seq<Entry>, part: seq<Entry>, violations: seq<Violation>, holders: set<string>, inherits: seq<Inherit>)
  {
    && violations == ServicesReport(volumes, part) && holders == Holders(volumes, part)
    && inherits == InheritsOf(part)
  }

  lemma CheckedNone(volumes: seq<Entry>)
    ensures Checked(volumes, [], [], {PROXY}, [])
  {
  }

  lemma CheckedOne(
    volumes: seq<Entry>, part: seq<Entry>, more: seq<Entry>, e: Entry, violations: seq<Violation>,
    holders: set<string>, inherits: seq<Inherit>)
    requires Checked(volumes, part, violations, holders, inherits) && more == part + [e]
    ensures Checked(volumes, more, violations + ServiceReport(volumes, e),
              if HasBadMount(volumes, MountsOf(e)) then holders + {e.key} else holders,
              inherits + [Inherit(e.key, Sources(e))])
  {
    assert more[..|part|] == part;
    InheritsGrow(part, e);
  }

  lemma InheritsGrow(part: seq<Entry>, e: Entry)
    ensures InheritsOf(part + [e]) == InheritsOf(part) + [Inherit(e.key, Sources(e))]
  {
  }

  method CheckServices(volumes: seq<Entry>, services: seq<Entry>)
    returns (violations: seq<Violation>, holders: set<string>, inherits: seq<Inherit>)
    ensures Checked(volumes, services, violations, holders, inherits)
  {
    violations, holders, inherits := [], {PROXY}, [];
    CheckedNone(volumes);
    for i := 0 to |services|
      invariant Checked(volumes, services[..i], violations, holders, inherits)
    {
      var found, holds, inherit := CheckService(volumes, services[i]);
      CheckedOne(volumes, services[..i], services[..i + 1], services[i], violations, holders, inherits);
      violations := violations + found;
      if holds {
        holders := holders + {services[i].key};
      }
      inherits := inherits + [inherit];
    }
    assert services[..|services|] == services;
  }

  // ----- volumes_from -------------------------------------------------------

  /** Whether `names` follow one another's `volumes_from`. */
  ghost predicate IsChain(inherits: seq<Inherit>, names: seq<string>) {
    names != [] && forall i | 0 <= i < |names| - 1 :: TakesFrom(inherits, names[i], names[i + 1])
  }

  ghost predicate TakesFrom(inherits: seq<Inherit>, name: string, from: string) {
    exists k :: 0 <= k < |inherits| && inherits[k].name == name && from in inherits[k].sources
  }

  /** Whether `name` takes mounts over from one of `holders`, through a chain of
      `volumes_from` of any length. */
  ghost predicate Reaches(inherits: seq<Inherit>, holders: set<string>, name: string) {
    exists names :: ReachesBy(inherits, holders, name, names)
  }

  ghost predicate ReachesBy(inherits: seq<Inherit>, holders: set<string>, name: string, names: seq<string>) {
    IsChain(inherits, names) && |names| > 1 && names[0] == name && names[|names| - 1] in holders
  }

  /** The first of `sources` that holds the socket. */
  function FirstHolder(sources: seq<string>, holders: set<string>): (r: Option<string>)
    ensures r.Some? ==> r.value in sources && r.value in holders
    ensures r.None? ==> forall s | s in sources :: s !in holders
  {
    if sources == [] then None
    else if sources[0] in holders then Some(sources[0])
    else FirstHolder(sources[1..], holders)
  }

  function NamesOfInherits(inherits: seq<Inherit>): set<string> {
    set i | i in inherits :: i.name
  }

  /** Whether an entry has nothing more to inherit. */
  predicate Settled(inherit: Inherit, inherited: map<string, string>, holders: set<string>) {
    inherit.name in inherited || FirstHolder(inherit.sources, holders).None?
  }

  ghost predicate Sound(inherits: seq<Inherit>, direct: set<string>, inherited: map<string, string>) {
    forall name | name in inherited ::
      Reaches(inherits, direct, name) && TakesFrom(inherits, name, inherited[name]) && name in NamesOfInherits(inherits)
  }

  /** Whoever takes from a holder reaches a direct one. */
  lemma OneMore(inherits: seq<Inherit>, direct: set<string>, inherited: map<string, string>, k: nat, from: string)
    requires Sound(inherits, direct, inherited) && k < |inherits| && from in inherits[k].sources
    requires from in direct || from in inherited
    ensures Reaches(inherits, direct, inherits[k].name) && TakesFrom(inherits, inherits[k].name, from)
    ensures inherits[k].name in NamesOfInherits(inherits)
  {
    var name := inherits[k].name;
    if from in direct {
      assert ReachesBy(inherits, direct, name, [name, from]);
    } else {
      var names :| ReachesBy(inherits, direct, from, names);
      var longer := [name] + names;
      forall i | 0 <= i < |longer| - 1 ensures TakesFrom(inherits, longer[i], longer[i + 1]) {
        if i > 0 {
          assert TakesFrom(inherits, names[i - 1], names[i]);
        }
      }
      assert ReachesBy(inherits, direct, name, longer);
    }
  }

  /** When nothing more can be inherited, everyone who reaches a holder has. */
  lemma {:induction false} AllFound(
    inherits: seq<Inherit>, direct: set<string>, inherited: map<string, string>, names: seq<string>)
    requires forall k | 0 <= k < |inherits| :: Settled(inherits[k], inherited, direct + inherited.Keys)
    requires names != [] && ReachesBy(inherits, direct, names[0], names)
    ensures names[0] in inherited
  {
    assert TakesFrom(inherits, names[0], names[1]);
    if |names| > 2 {
      var rest := names[1..];
      forall i | 0 <= i < |rest| - 1 ensures TakesFrom(inherits, rest[i], rest[i + 1]) {
        assert TakesFrom(inherits, names[i + 1], names[i + 2]);
      }
      AllFound(inherits, direct, inherited, rest);
    }
    var k :| 0 <= k < |inherits| && inherits[k].name == names[0] && names[1] in inherits[k].sources;
    assert Settled(inherits[k], inherited, direct + inherited.Keys);
  }

  /** The fixpoint over `volumes_from`: exactly the services that reach a holder. */
  method FollowInheritance(inherits: seq<Inherit>, direct: set<string>)
    returns (inherited: map<string, string>, order: seq<string>)
    ensures forall name :: name in order <==> name in inherited
    ensures forall name :: name in inherited <==> Reaches(inherits, direct, name)
    ensures forall name | name in inherited :: TakesFrom(inherits, name, inherited[name])
  {
    inherited, order := map[], [];
    var holders, grew := direct, true;
    while grew
      invariant Sound(inherits, direct, inherited) && holders == direct + inherited.Keys
      invariant forall name :: name in order <==> name in inherited
      invariant !grew ==> forall k | 0 <= k < |inherits| :: Settled(inherits[k], inherited, holders)
      decreases NamesOfInherits(inherits) - inherited.Keys, grew
    {
      grew := false;
      ghost var before := inherited.Keys;
      for k := 0 to |inherits|
        invariant Sound(inherits, direct, inherited) && holders == direct + inherited.Keys
        invariant forall name :: name in order <==> name in inherited
        invariant before <= inherited.Keys && (grew <==> before != inherited.Keys)
        invariant !grew ==> forall j | 0 <= j < k :: Settled(inherits[j], inherited, holders)
      {
        var from := if inherits[k].name in inherited then None else FirstHolder(inherits[k].sources, holders);
        if from.Some? {
          OneMore(inherits, direct, inherited, k, from.value);
          inherited := inherited[inherits[k].name := from.value];
          order := order + [inherits[k].name];
          holders := holders + {inherits[k].name};
          grew := true;
        }
      }
      assert before <= NamesOfInherits(inherits) && inherited.Keys <= NamesOfInherits(inherits);
    }
    forall name | Reaches(inherits, direct, name) ensures name in inherited {
      var names :| ReachesBy(inherits, direct, name, names);
      AllFound(inherits, direct, inherited, names);
    }
  }

  // ----- the report ---------------------------------------------------------

  /** What is wrong with the file before inheritance is followed. */
  function Direct(c: Compose): seq<Violation> {
    FilesReport(c.secrets) + FilesReport(c.configs) + ServicesReport(c.volumes, c.services)
  }

  /** Whether `name` is reported for what it inherits. */
  ghost predicate MustInherit(c: Compose, name: string) {
    name != PROXY && Reaches(InheritsOf(c.services), Holders(c.volumes, c.services), name)
  }

  /** Whether there is nothing to report. */
  ghost predicate Accepted(c: Compose) {
    Direct(c) == [] && forall name :: !MustInherit(c, name)
  }

  method SocketAccessViolations(c: Compose) returns (violations: seq<Violation>)
    ensures violations == [] <==> Accepted(c)
    ensures Direct(c) <= violations
    ensures forall v | v in violations[|Direct(c)|..] ::
              v.Inherits? && MustInherit(c, v.name) && TakesFrom(InheritsOf(c.services), v.name, v.from)
    ensures forall name | MustInherit(c, name) :: exists v :: v in violations && v.Inherits? && v.name == name
  {
    var secrets := CheckFiles(c.secrets);
    var configs := CheckFiles(c.configs);
    var found, holders, inherits := CheckServices(c.volumes, c.services);
    var inherited, order := FollowInheritance(inherits, holders);
    var tail := ReportInherited(inherited, order);
    violations := secrets + configs + found + tail;
    assert violations[|Direct(c)|..] == tail;
    forall name | MustInherit(c, name) ensures exists v :: v in violations && v.Inherits? && v.name == name {
      assert Inherits(name, inherited[name]) in tail;
    }
    if Direct(c) == [] && violations != [] {
      assert violations == tail && tail[0] in tail && MustInherit(c, tail[0].name);
    }
  }

  method ReportInherited(inherited: map<string, string>, order: seq<string>) returns (violations: seq<Violation>)
    requires forall name :: name in order <==> name in inherited
    ensures forall v | v in violations ::
              v.Inherits? && v.name in inherited && v.from == inherited[v.name] && v.name != PROXY
    ensures forall name | name in inherited && name != PROXY :: Inherits(name, inherited[name]) in violations
  {
    violations := [];
    for i := 0 to |order|
      invariant forall v | v in violations ::
                  v.Inherits? && v.name in inherited && v.from == inherited[v.name] && v.name != PROXY
      invariant forall j | 0 <= j < i && order[j] != PROXY :: Inherits(order[j], inherited[order[j]]) in violations
    {
      if order[i] != PROXY {
        violations := violations + [Inherits(order[i], inherited[order[i]])];
      }
    }
  }
}
